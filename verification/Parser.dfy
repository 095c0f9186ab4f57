/** The pushdown parser from tokens to events (parserc.go).
  *
  * The scanner is abstracted to the sequence of tokens it delivers; running out of tokens
  * is a scanner error. The state and the stack of states are related to the grammar of
  * events by `OpenIn`, and every method that delivers an event takes exactly that step of the
  * grammar; they are related to the recursive descent of Descent.dfy by `Gives`, which fixes
  * every event and every error. */
module YamlParser {
  import opened Options
  import opened YamlEvents
  import opened YamlTokens
  import opened YamlDescent
  import YamlReading
  import YamlWindows

  // ----- What a state says about the open productions ----------------------------------

  /** The productions that are open inside the enclosing ones when the parser is in state `s`. */
  function FramesOf(s: State): seq<Frame> {
    match s
    case DocumentEndState => [DocFrame(true)]
    case BlockSequenceFirstEntryState | BlockSequenceEntryState | IndentlessSequenceEntryState
       | FlowSequenceFirstEntryState | FlowSequenceEntryState => [SeqFrame]
    case BlockMappingFirstKeyState | BlockMappingKeyState
       | FlowMappingFirstKeyState | FlowMappingKeyState => [MapFrame(true)]
    case BlockMappingValueState | FlowMappingValueState | FlowMappingEmptyValueState => [MapFrame(false)]
    case FlowSequenceEntryMappingKeyState | FlowSequenceEntryMappingEndState => [SeqFrame, MapFrame(true)]
    case FlowSequenceEntryMappingValueState => [SeqFrame, MapFrame(false)]
    case _ => []
  }

  /** The token whose mark is on the stack of marks while the parser is in state `s`. */
  function OpenersOf(s: State): seq<TokenType> {
    match s
    case BlockSequenceEntryState => [BlockSequenceStartToken]
    case BlockMappingKeyState | BlockMappingValueState => [BlockMappingStartToken]
    case FlowSequenceEntryState | FlowSequenceEntryMappingKeyState
       | FlowSequenceEntryMappingValueState | FlowSequenceEntryMappingEndState => [FlowSequenceStartToken]
    case FlowMappingKeyState | FlowMappingValueState | FlowMappingEmptyValueState => [FlowMappingStartToken]
    case _ => []
  }

  /** How many more events a state may deliver without taking a token. */
  function WeightOf(s: State): nat {
    match s
    case ImplicitDocumentStartState | FlowSequenceEntryMappingKeyState => 3
    case FlowSequenceEntryMappingValueState => 2
    case DocumentEndState | DocumentContentState | BlockNodeState | IndentlessSequenceEntryState
       | FlowSequenceEntryMappingEndState | BlockMappingValueState
       | FlowMappingValueState | FlowMappingEmptyValueState => 1
    case _ => 0
  }

  /** A state that may wait on the stack for a node inside a collection to be completed. */
  predicate Waiting(s: State) {
    FramesOf(s) != [] && s != DocumentEndState
    && s != BlockSequenceFirstEntryState && s != BlockMappingFirstKeyState
    && s != FlowSequenceFirstEntryState && s != FlowMappingFirstKeyState
  }

  /** A state that the parser returns to after a completed node. */
  predicate Resting(s: State) {
    s == DocumentEndState || Waiting(s)
  }

  /** At the bottom of the stack waits the end of the document, above it only collections. */
  predicate ValidStack(states: seq<State>) {
    && (states != [] ==> states[0] == DocumentEndState)
    && forall i :: 1 <= i < |states| ==> Waiting(states[i])
  }

  function StackFrames(states: seq<State>): seq<Frame> {
    if states == [] then [] else StackFrames(states[..|states| - 1]) + FramesOf(states[|states| - 1])
  }

  function StackOpeners(states: seq<State>): seq<TokenType> {
    if states == [] then [] else StackOpeners(states[..|states| - 1]) + OpenersOf(states[|states| - 1])
  }

  function StackWeight(states: seq<State>): nat {
    if states == [] then 0 else StackWeight(states[..|states| - 1]) + WeightOf(states[|states| - 1])
  }

  lemma Push(states: seq<State>, s: State)
    ensures StackFrames(states + [s]) == StackFrames(states) + FramesOf(s)
    ensures StackOpeners(states + [s]) == StackOpeners(states) + OpenersOf(s)
    ensures StackWeight(states + [s]) == StackWeight(states) + WeightOf(s)
  {
    assert (states + [s])[..|states|] == states;
  }

  lemma Popped(states: seq<State>, s: State)
    requires ValidStack(states + [s])
    ensures ValidControl(s, states) && Resting(s)
    ensures OpenIn(s, states) == Doc(StackFrames(states) + FramesOf(s))
    ensures OpenersIn(s, states) == StackOpeners(states) + OpenersOf(s)
  {
    hide StackFrames, StackOpeners, OpenersOf;
    var all := states + [s];
    assert all[|states|] == s && forall i :: 0 <= i < |states| ==> all[i] == states[i];
    if OpenersOf(s) == [] {
      assert StackOpeners(states) + OpenersOf(s) == StackOpeners(states);
    }
  }

  /** A state that rests inside a document has no first token to take. */
  lemma RestingIs(s: State, tokens: seq<Token>, pos: nat)
    requires Resting(s)
    ensures ValidFirst(tokens, pos, s) && !BetweenDocuments(s) && s != BlockNodeState && s != DocumentContentState
  {
  }

  /** The steps of the grammar inside an open production `f`. */
  lemma StepsIn(base: seq<Frame>, f: Frame)
    ensures WantsNode(f) ==>
              && Step(Doc(base + [f]), Alias) == Step(Doc(base + [f]), Scalar) == Doc(base + [Fill(f)])
              && Step(Doc(base + [f]), SequenceStart) == Doc(base + [Fill(f)] + [SeqFrame])
              && Step(Doc(base + [f]), MappingStart) == Doc(base + [Fill(f)] + [MapFrame(true)])
    ensures f == SeqFrame ==> Step(Doc(base + [f]), SequenceEnd) == Doc(base)
    ensures f == MapFrame(true) ==> Step(Doc(base + [f]), MappingEnd) == Doc(base)
  {
    assert (base + [f])[..|base|] == base;
  }

  /** The steps of the grammar inside a mapping of one pair in a sequence. */
  lemma PairSteps(base: seq<Frame>)
    ensures base + [SeqFrame, MapFrame(true)] == base + [SeqFrame] + [MapFrame(true)]
    ensures base + [SeqFrame, MapFrame(false)] == base + [SeqFrame] + [MapFrame(false)]
    ensures Step(Doc(base + [SeqFrame] + [MapFrame(true)]), Scalar) == Doc(base + [SeqFrame] + [MapFrame(false)])
    ensures Step(Doc(base + [SeqFrame] + [MapFrame(false)]), Scalar) == Doc(base + [SeqFrame] + [MapFrame(true)])
    ensures Step(Doc(base + [SeqFrame] + [MapFrame(true)]), MappingEnd) == Doc(base + [SeqFrame])
    ensures Fill(MapFrame(true)) == MapFrame(false) && Fill(MapFrame(false)) == MapFrame(true)
    ensures WantsNode(MapFrame(true)) && WantsNode(MapFrame(false))
  {
    StepsIn(base + [SeqFrame], MapFrame(true));
    StepsIn(base + [SeqFrame], MapFrame(false));
  }

  /** The tokens whose marks are on the stack of marks in state `s`. */
  function OpenersIn(s: State, states: seq<State>): seq<TokenType> {
    if OpenersOf(s) == [] then StackOpeners(states) else StackOpeners(states) + OpenersOf(s)
  }

  /** The productions of the event grammar that are open in state `s`. */
  ghost function OpenIn(s: State, states: seq<State>): Grammar {
    match s
    case StreamStartState => Start
    case ImplicitDocumentStartState | DocumentStartState => Stream
    case EndState => End
    case BlockNodeState | DocumentContentState => Doc([DocFrame(false)])
    case _ => Doc(StackFrames(states) + FramesOf(s))
  }

  predicate BetweenDocuments(s: State) {
    s == StreamStartState || s == ImplicitDocumentStartState || s == DocumentStartState || s == EndState
  }

  ghost predicate ValidControl(s: State, states: seq<State>) {
    && ValidStack(states)
    && (BetweenDocuments(s) || s == DocumentEndState ==> states == [])
    && (s == BlockNodeState || s == DocumentContentState ==> states == [DocumentEndState])
    && (FramesOf(s) != [] && s != DocumentEndState ==> states != [])
    && s != BlockNodeOrIndentlessSequenceState && s != FlowNodeState
  }

  function MeasureOf(remaining: int, s: State, states: seq<State>): int {
    6 * remaining + WeightOf(s) + StackWeight(states)
  }

  /** In the state after the start event of a collection, its first token is still there. */
  predicate ValidFirst(tokens: seq<Token>, pos: nat, s: State) {
    && (s == BlockSequenceFirstEntryState ==> NextIs(tokens, pos, BlockSequenceStartToken))
    && (s == BlockMappingFirstKeyState ==> NextIs(tokens, pos, BlockMappingStartToken))
    && (s == FlowSequenceFirstEntryState ==> NextIs(tokens, pos, FlowSequenceStartToken))
    && (s == FlowMappingFirstKeyState ==> NextIs(tokens, pos, FlowMappingStartToken))
  }

  predicate NextIs(tokens: seq<Token>, pos: nat, typ: TokenType) {
    pos < |tokens| && tokens[pos].typ == typ
  }

  /** The marks are the starts of the tokens, in order, that opened the collections `openers`. */
  ghost predicate ValidMarks(tokens: seq<Token>, marks: seq<Mark>, pushed: seq<nat>, openers: seq<TokenType>) {
    && |marks| == |pushed| == |openers|
    && (forall i :: 0 <= i < |marks| ==>
          pushed[i] < |tokens| && tokens[pushed[i]].typ == openers[i] && marks[i] == tokens[pushed[i]].start)
    && forall i, j :: 0 <= i < j < |pushed| ==> pushed[i] < pushed[j]
  }

  lemma MarkPushed(tokens: seq<Token>, marks: seq<Mark>, pushed: seq<nat>, openers: seq<TokenType>, pos: nat)
    requires ValidMarks(tokens, marks, pushed, openers) && pos < |tokens|
    requires pushed != [] ==> pushed[|pushed| - 1] < pos
    ensures ValidMarks(tokens, marks + [tokens[pos].start], pushed + [pos], openers + [tokens[pos].typ])
  {
  }

  // ----- Events ------------------------------------------------------------------------

  const SCANNER_ERROR := "scanner error"

  predicate DistinctHandles(ds: seq<TagDirective>) {
    forall i, j :: 0 <= i < j < |ds| ==> ds[i].handle != ds[j].handle
  }

  /** The directives in force inside a document. */
  predicate ReadyDirectives(ds: seq<TagDirective>) {
    DistinctHandles(ds) && HasHandle(ds, "!") && HasHandle(ds, "!!")
  }

  // ----- The text of the stream --------------------------------------------------------

  /** The text a token contributes to the events: that of a scalar, or the name of an alias. */
  function TextOf(t: Token): string {
    if t.typ == ScalarToken || t.typ == AliasToken then t.value else ""
  }

  function TextOfEvent(e: Event): string {
    match e.kind
    case Scalar => e.value
    case Alias => if e.anchor == None then "" else e.anchor.value
    case _ => ""
  }

  function AddText(texts: seq<string>, text: string): seq<string> {
    if text == "" then texts else texts + [text]
  }

  /** The non-empty texts of some tokens, in order. */
  function Texts(ts: seq<Token>): seq<string> {
    if ts == [] then [] else AddText(Texts(ts[..|ts| - 1]), TextOf(ts[|ts| - 1]))
  }

  lemma OneText(tokens: seq<Token>, pos: nat)
    requires pos < |tokens|
    ensures Texts(tokens[..pos + 1]) == AddText(Texts(tokens[..pos]), TextOf(tokens[pos]))
  {
    hide AddText, TextOf;
    assert tokens[..pos + 1][..pos] == tokens[..pos];
  }

  function EventTexts(es: seq<Event>): seq<string> {
    if es == [] then [] else AddText(EventTexts(es[..|es| - 1]), TextOfEvent(es[|es| - 1]))
  }

  lemma NoHandles()
    ensures DistinctHandles([])
  {
  }

  lemma KeepsHandle(ds: seq<TagDirective>, more: seq<TagDirective>, handle: string)
    requires HasHandle(ds, handle) && ds <= more
    ensures HasHandle(more, handle)
  {
    var i :| 0 <= i < |ds| && ds[i].handle == handle;
    assert more[i].handle == handle;
  }

  /** A row of the tables above. */
  predicate Row(s: State, frames: seq<Frame>, openers: seq<TokenType>, weight: nat, waiting: bool) {
    FramesOf(s) == frames && OpenersOf(s) == openers && WeightOf(s) == weight && Waiting(s) == waiting &&
        InCollection(s)
  }

  lemma BlockSequenceRows()
    ensures Row(BlockSequenceFirstEntryState, [SeqFrame], [], 0, false)
    ensures Row(BlockSequenceEntryState, [SeqFrame], [BlockSequenceStartToken], 0, true)
  {
  }

  lemma IndentlessRow()
    ensures Row(IndentlessSequenceEntryState, [SeqFrame], [], 1, true)
  {
  }

  lemma BlockMappingRows()
    ensures Row(BlockMappingFirstKeyState, [MapFrame(true)], [], 0, false)
    ensures Row(BlockMappingKeyState, [MapFrame(true)], [BlockMappingStartToken], 0, true)
    ensures Row(BlockMappingValueState, [MapFrame(false)], [BlockMappingStartToken], 1, true)
  {
  }

  lemma FlowSequenceRows()
    ensures Row(FlowSequenceFirstEntryState, [SeqFrame], [], 0, false)
    ensures Row(FlowSequenceEntryState, [SeqFrame], [FlowSequenceStartToken], 0, true)
    ensures Row(FlowSequenceEntryMappingKeyState, [SeqFrame, MapFrame(true)], [FlowSequenceStartToken], 3, true)
  {
  }

  lemma PairKeyRows()
    ensures Row(FlowSequenceEntryMappingKeyState, [SeqFrame, MapFrame(true)], [FlowSequenceStartToken], 3, true)
    ensures Row(FlowSequenceEntryMappingValueState, [SeqFrame, MapFrame(false)], [FlowSequenceStartToken], 2, true)
  {
  }

  lemma PairRows()
    ensures Row(FlowSequenceEntryState, [SeqFrame], [FlowSequenceStartToken], 0, true)
    ensures Row(FlowSequenceEntryMappingKeyState, [SeqFrame, MapFrame(true)], [FlowSequenceStartToken], 3, true)
    ensures Row(FlowSequenceEntryMappingValueState, [SeqFrame, MapFrame(false)], [FlowSequenceStartToken], 2, true)
    ensures Row(FlowSequenceEntryMappingEndState, [SeqFrame, MapFrame(true)], [FlowSequenceStartToken], 1, true)
  {
  }

  lemma FlowMappingRows()
    ensures Row(FlowMappingFirstKeyState, [MapFrame(true)], [], 0, false)
    ensures Row(FlowMappingKeyState, [MapFrame(true)], [FlowMappingStartToken], 0, true)
    ensures Row(FlowMappingValueState, [MapFrame(false)], [FlowMappingStartToken], 1, true)
    ensures Row(FlowMappingEmptyValueState, [MapFrame(false)], [FlowMappingStartToken], 1, true)
  {
  }

  /** The states after the start of a collection. */
  lemma IndentlessStart(tokens: seq<Token>, pos: nat)
    ensures Row(IndentlessSequenceEntryState, [SeqFrame], [], 1, true)
    ensures ValidFirst(tokens, pos, IndentlessSequenceEntryState)
  {
  }

  lemma FirstRows(tokens: seq<Token>, pos: nat)
    requires pos < |tokens|
    ensures Row(BlockSequenceFirstEntryState, [SeqFrame], [], 0, false) &&
      Row(BlockMappingFirstKeyState, [MapFrame(true)], [], 0, false)
    ensures Row(FlowSequenceFirstEntryState, [SeqFrame], [], 0, false) &&
      Row(FlowMappingFirstKeyState, [MapFrame(true)], [], 0, false)
    ensures Row(IndentlessSequenceEntryState, [SeqFrame], [], 1, true) &&
      ValidFirst(tokens, pos, IndentlessSequenceEntryState)
    ensures tokens[pos].typ == BlockSequenceStartToken ==> ValidFirst(tokens, pos, BlockSequenceFirstEntryState)
    ensures tokens[pos].typ == BlockMappingStartToken ==> ValidFirst(tokens, pos, BlockMappingFirstKeyState)
    ensures tokens[pos].typ == FlowSequenceStartToken ==> ValidFirst(tokens, pos, FlowSequenceFirstEntryState)
    ensures tokens[pos].typ == FlowMappingStartToken ==> ValidFirst(tokens, pos, FlowMappingFirstKeyState)
  {
  }

  /** At the bottom of the stack waits the end of the document. */
  lemma OneDocument()
    ensures StackFrames([]) == [] && StackOpeners([]) == [] && StackWeight([]) == 0
    ensures StackFrames([DocumentEndState]) == [DocFrame(true)] && StackOpeners([DocumentEndState]) == []
    ensures StackWeight([DocumentEndState]) == 1
  {
    Push([], DocumentEndState);
    assert [] + [DocumentEndState] == [DocumentEndState];
  }

  /** What a state on top of the stack adds. */
  lemma OnTop(s: State, states: seq<State>, n: int)
    ensures OpenersIn(s, states) == if OpenersOf(s) == [] then StackOpeners(states)
      else StackOpeners(states) + OpenersOf(s)
    ensures MeasureOf(n, s, states) == 6 * n + WeightOf(s) + StackWeight(states)
  {
  }

  class Parser {
    const tokens: seq<Token>
    var pos: nat
    var state: State
    var states: seq<State>
    var marks: seq<Mark>
    var tagDirectives: seq<TagDirective>
    var error: Option<string>
    var streamEndProduced: bool
    /** Which token pushed each of the marks. */
    ghost var pushed: seq<nat>
    /** The texts of the tokens taken so far. */
    ghost var taken: seq<string>

    ghost predicate Valid()
      reads this
    {
      && error == None
      && pos <= |tokens|
      && ValidControl(state, states)
      && ValidFirst(tokens, pos, state)
      && ValidMarks(tokens, marks, pushed, OpenersIn(state, states))
      && (pushed != [] ==> pushed[|pushed| - 1] < pos)
      && (if BetweenDocuments(state) then tagDirectives == [] else ReadyDirectives(tagDirectives))
      && (streamEndProduced <==> state == EndState)
      && taken == Texts(tokens[..pos])
    }

    /** What holds while the next state inside a document is chosen; `openers` are the
      * tokens whose marks are on the stack. */
    ghost predicate Inside(openers: seq<TokenType>)
      reads `error, `pos, `states, `marks, `pushed, `tagDirectives, `streamEndProduced, `taken
    {
      && error == None
      && pos <= |tokens|
      && ValidStack(states) && states != []
      && ValidMarks(tokens, marks, pushed, openers)
      && (pushed != [] ==> pushed[|pushed| - 1] < pos)
      && ReadyDirectives(tagDirectives)
      && !streamEndProduced
      && taken == Texts(tokens[..pos])
    }

    /** The outcome of a state: an error, or an event that is a step of the grammar from `g`. */
    ghost predicate Delivered(ok: bool, event: Event, g: Grammar, budget: int, before: seq<string>)
      reads this
    {
      if ok then
        && Valid()
        && OpenIn(state, states) == Step(g, event.kind)
        && MeasureOf(|tokens| - pos, state, states) < budget
        && taken == AddText(before, TextOfEvent(event))
      else
        error != None
    }

    /** What is still to come. */
    ghost function Ahead(): Result
      reads `state, `states, `pos, `tagDirectives
    {
      Remaining(tokens, tagDirectives, state, states, pos)
    }

    /** The outcome is the first event of `want`, and the rest of `want` is still to come; or
      * `want` is an error. */
    ghost predicate Gives(ok: bool, event: Event, want: Result)
      reads `state, `states, `pos, `tagDirectives
    {
      want == if ok then Emit(event, Ahead()) else FAIL
    }

    constructor (tokens: seq<Token>)
      ensures Valid() && OpenIn(state, states) == Start
      ensures this.tokens == tokens && pos == 0 && state == StreamStartState
    {
      this.tokens := tokens;
      pos := 0;
      state := StreamStartState;
      states, marks, tagDirectives, pushed, taken := [], [], [], [], [];
      error := None;
      streamEndProduced := false;
    }

    function Peek(): (token: Option<Token>)
      reads this
      ensures token != None <==> pos < |tokens|
      ensures token != None ==> token.value == tokens[pos]
    {
      if pos < |tokens| then Some(tokens[pos]) else None
    }

    method Skip()
      requires pos < |tokens| && taken == Texts(tokens[..pos])
      modifies `pos, `streamEndProduced, `taken
      ensures pos == old(pos) + 1
      ensures taken == Texts(tokens[..pos]) == AddText(old(taken), TextOf(tokens[old(pos)]))
      ensures streamEndProduced <==> tokens[old(pos)].typ == StreamEndToken
      ensures forall openers :: old(Inside(openers)) && tokens[old(pos)].typ != StreamEndToken ==> Inside(openers)
    {
      hide ValidMarks, ReadyDirectives, StackOpeners, ValidStack, Texts, AddText, TextOf;
      OneText(tokens, pos);
      streamEndProduced := tokens[pos].typ == StreamEndToken;
      taken := AddText(taken, TextOf(tokens[pos]));
      pos := pos + 1;
    }

    method SetError(problem: string)
      modifies `error
      ensures error == Some(problem)
      ensures forall event, g, budget, before :: Delivered(false, event, g, budget, before)
      ensures forall event :: Gives(false, event, FAIL)
    {
      error := Some(problem);
    }

    lemma Failed(event: Event, g: Grammar, budget: int, before: seq<string>)
      requires error != None
      ensures Delivered(false, event, g, budget, before) && Gives(false, event, FAIL)
    {
    }

    /** What holds on entry to a state inside a collection. */
    lemma Entered()
      requires Valid() && InCollection(state)
      ensures Inside(OpenersIn(state, states)) && OpenIn(state, states) == Doc(StackFrames(states) + FramesOf(state))
      ensures Ahead() == ThenRest(tokens, tagDirectives, Meaning(tokens, tagDirectives, state, pos), states)
      ensures ValidFirst(tokens, pos, state) && taken == Texts(tokens[..pos])
    {
      hide ThenRest, Meaning, Remaining, StackFrames, StackOpeners, ValidMarks, ReadyDirectives, Texts;
      Unfold(tokens, tagDirectives, state, states, pos);
    }

    /** What holds before the node of a document. */
    lemma EnteredDocument()
      requires Valid() && (state == BlockNodeState || state == DocumentContentState)
      ensures states == [DocumentEndState] && Inside(StackOpeners(states))
      ensures StackFrames(states) == [] + [DocFrame(true)] && StackWeight(states) == 1
      ensures Step(Doc([] + [DocFrame(false)]), Scalar) == Doc(StackFrames(states)) &&
        [] + [DocFrame(false)] == [DocFrame(false)]
      ensures pos >= |tokens| ==> Ahead() == FAIL
      ensures pos < |tokens| ==>
                Ahead() ==
                if state == DocumentContentState
                   && (IsDirective(tokens[pos]) || tokens[pos].typ == DocumentStartToken
                       || tokens[pos].typ == DocumentEndToken || tokens[pos].typ == StreamEndToken) then
                  EndFirst(tokens, tagDirectives, pos, EmptyScalar(tokens[pos].start), states)
                else NodeFirst(tokens, tagDirectives, pos, true, false, states)
    {
      hide Remaining, NodeFirst, EndFirst, DocumentNode, DocumentContentAt, DocumentStartAt, DocumentEndAt, StreamAt,
        ThenRest, ValidMarks, ReadyDirectives, Texts, StackFrames, StackOpeners, StackWeight;
      UnfoldOutside(tokens, tagDirectives, states, pos);
      OneDocument();
      StepsIn([], DocFrame(false));
      if pos < |tokens| {
        DocumentFirst(tokens, tagDirectives, pos);
      } else {
        NoDocument(tokens, tagDirectives, pos);
      }
    }

    /** What holds between documents. */
    lemma EnteredStream()
      requires Valid() && (state == ImplicitDocumentStartState || state == DocumentStartState)
      ensures error == None && pos <= |tokens| && states == [] && tagDirectives == [] && !streamEndProduced
      ensures taken == Texts(tokens[..pos]) && ValidMarks(tokens, marks, pushed, [])
      ensures MeasureOf(|tokens| - pos, state, states) == 6 * (|tokens| - pos) + WeightOf(state)
      ensures Ahead() == DocumentStartAt(tokens, pos, state == ImplicitDocumentStartState)
    {
      hide Remaining, DocumentStartAt, DocumentNode, DocumentContentAt, DocumentEndAt, StreamAt, ThenRest,
        ValidMarks, Texts;
      UnfoldOutside(tokens, tagDirectives, states, pos);
    }

    lemma EnteredStart()
      requires Valid() && state == StreamStartState
      ensures error == None && pos <= |tokens| && states == [] && tagDirectives == [] && !streamEndProduced
      ensures taken == Texts(tokens[..pos]) && ValidMarks(tokens, marks, pushed, [])
      ensures MeasureOf(|tokens| - pos, state, states) == 6 * (|tokens| - pos)
      ensures Ahead() == StreamAt(tokens, pos)
    {
      hide Remaining, DocumentStartAt, DocumentNode, DocumentContentAt, DocumentEndAt, StreamAt, ThenRest,
        ValidMarks, Texts;
      UnfoldOutside(tokens, tagDirectives, states, pos);
    }

    lemma EnteredEnd()
      requires Valid() && state == DocumentEndState
      ensures error == None && pos <= |tokens| && states == [] && !streamEndProduced
      ensures taken == Texts(tokens[..pos]) && ValidMarks(tokens, marks, pushed, [])
      ensures MeasureOf(|tokens| - pos, state, states) == 6 * (|tokens| - pos) + 1
      ensures Ahead() == DocumentEndAt(tokens, pos)
    {
      hide Remaining, DocumentStartAt, DocumentNode, DocumentContentAt, DocumentEndAt, StreamAt, ThenRest,
        ValidMarks, Texts;
      UnfoldOutside(tokens, tagDirectives, states, pos);
    }

    /** The parser is between documents. */
    lemma Between(event: Event, g: Grammar, budget: int, before: seq<string>)
      requires error == None && pos <= |tokens| && states == [] && tagDirectives == [] && !streamEndProduced
      requires (state == ImplicitDocumentStartState && g == Start && event.kind == StreamStart)
            || (state == DocumentStartState && g == Doc([DocFrame(true)]) && event.kind == DocumentEnd)
      requires 6 * (|tokens| - pos) + WeightOf(state) < budget
      requires taken == Texts(tokens[..pos]) == before && ValidMarks(tokens, marks, pushed, [])
      ensures Delivered(true, event, g, budget, before)
      ensures Ahead() == DocumentStartAt(tokens, pos, state == ImplicitDocumentStartState)
    {
      hide Texts, Remaining, DocumentStartAt, DocumentNode, DocumentContentAt, DocumentEndAt, StreamAt;
      UnfoldOutside(tokens, tagDirectives, states, pos);
    }

    /** A document has been opened. */
    lemma Opened(event: Event, budget: int, before: seq<string>)
      requires error == None && pos <= |tokens| && states == [DocumentEndState] && !streamEndProduced
      requires (state == DocumentContentState || state == BlockNodeState) && event.kind == DocumentStart
      requires ReadyDirectives(tagDirectives) && ValidMarks(tokens, marks, pushed, [])
      requires 6 * (|tokens| - pos) + 2 < budget && taken == Texts(tokens[..pos]) == before
      ensures Delivered(true, event, Stream, budget, before)
      ensures Ahead() == if state == DocumentContentState then DocumentContentAt(tokens, tagDirectives, pos)
                         else DocumentNode(tokens, tagDirectives, pos)
    {
      hide Texts, ReadyDirectives, DocumentContentAt, DocumentNode, DocumentStartAt, DocumentEndAt, StreamAt,
        Remaining, StackFrames, StackOpeners, StackWeight;
      UnfoldOutside(tokens, tagDirectives, states, pos);
      OneDocument();
    }

    /** The end of the stream has been reached. */
    lemma Ended(event: Event, budget: int, before: seq<string>)
      requires error == None && pos <= |tokens| && states == [] && tagDirectives == [] && streamEndProduced
      requires state == EndState && event.kind == StreamEnd && 6 * (|tokens| - pos) < budget
      requires taken == Texts(tokens[..pos]) == before && ValidMarks(tokens, marks, pushed, [])
      ensures Delivered(true, event, Stream, budget, before) && Ahead() == Result([], Some(pos))
    {
      hide Texts, ReadyDirectives;
    }

    lemma InsideTaken(openers: seq<TokenType>)
      requires Inside(openers)
      ensures pos <= |tokens| && taken == Texts(tokens[..pos]) && error == None && !streamEndProduced
    {
    }

    /** The parser is in a state inside a collection. */
    lemma InState(event: Event, g: Grammar, budget: int, before: seq<string>)
      requires Inside(OpenersIn(state, states)) && Waiting(state)
      requires Step(g, event.kind) == Doc(StackFrames(states) + FramesOf(state))
      requires MeasureOf(|tokens| - pos, state, states) < budget && taken == AddText(before, TextOfEvent(event))
      ensures Delivered(true, event, g, budget, before)
      ensures Ahead() == ThenRest(tokens, tagDirectives, Meaning(tokens, tagDirectives, state, pos), states)
    {
      hide Step, Texts, StackFrames, StackOpeners, StackWeight, ValidMarks, ReadyDirectives, ThenRest, Meaning,
        Remaining;
      Unfold(tokens, tagDirectives, state, states, pos);
    }

    // ----- The two stacks --------------------------------------------------------------

    method PopState()
      requires ValidStack(states) && states != []
      modifies `state, `states
      ensures old(states) == states + [state]
      ensures ValidControl(state, states) && Resting(state)
      ensures OpenIn(state, states) == Doc(StackFrames(old(states)))
      ensures OpenersIn(state, states) == StackOpeners(old(states))
      ensures WeightOf(state) + StackWeight(states) == StackWeight(old(states))
    {
      hide ValidStack, ValidControl, Resting, OpenIn, StackFrames, OpenersIn, StackOpeners, StackWeight, WeightOf;
      ghost var n := |states| - 1;
      assert states == states[..n] + [states[n]];
      Popped(states[..n], states[n]);
      Push(states[..n], states[n]);
      state := states[|states| - 1];
      states := states[..|states| - 1];
    }

    method PushState(s: State)
      requires ValidStack(states) && (if states == [] then s == DocumentEndState else Waiting(s))
      modifies `states
      ensures states == old(states) + [s] && ValidStack(states)
      ensures StackFrames(states) == StackFrames(old(states)) + FramesOf(s)
      ensures StackOpeners(states) == StackOpeners(old(states)) + OpenersOf(s)
      ensures StackWeight(states) == StackWeight(old(states)) + WeightOf(s)
    {
      Push(states, s);
      states := states + [s];
    }

    /** Takes the token that opens a collection and keeps its mark. */
    method PushMark()
      requires pos < |tokens| && Inside(StackOpeners(states))
      requires tokens[pos].typ != StreamEndToken && TextOf(tokens[pos]) == ""
      modifies `pos, `marks, `pushed, `streamEndProduced, `taken
      ensures pos == old(pos) + 1
      ensures Inside(StackOpeners(states) + [tokens[old(pos)].typ]) && taken == old(taken)
    {
      hide StackOpeners, StackFrames, Texts, ReadyDirectives, ValidStack, ValidMarks;
      var mark := tokens[pos].start;
      MarkPushed(tokens, marks, pushed, StackOpeners(states), pos);
      Skip();
      marks := marks + [mark];
      pushed := pushed + [pos - 1];
    }

    method PopMark(ghost openers: seq<TokenType>, ghost typ: TokenType)
      requires Inside(openers + [typ])
      modifies `marks, `pushed
      ensures Inside(openers)
    {
      assert openers == (openers + [typ])[..|openers|];
      marks := marks[..|marks| - 1];
      pushed := pushed[..|pushed| - 1];
    }

    // ----- What a state does next ------------------------------------------------------

    /** Parses a node, to return to state `s` when it is completed. */
    method NodeThen(s: State, block: bool, indentless: bool, ghost base: seq<Frame>, ghost f: Frame, ghost budget: int,
        ghost want: Result)
      returns (ok: bool, event: Event)
      requires Inside(OpenersIn(s, states)) && Waiting(s) && pos < |tokens|
      requires WantsNode(f) && StackFrames(states) + FramesOf(s) == base + [Fill(f)]
      requires MeasureOf(|tokens| - pos, s, states) + (if indentless then 1 else 0) < budget
      requires want == NodeFirst(tokens, tagDirectives, pos, block, indentless, states + [s])
      modifies this
      ensures Delivered(ok, event, Doc(base + [f]), budget, old(taken))
      ensures Gives(ok, event, want)
    {
      hide Step, Texts, StackFrames, StackOpeners, StackWeight, ValidMarks, ReadyDirectives, FramesOf, Delivered,
        Gives, NodeFirst;
      PushState(s);
      if OpenersOf(s) == [] {
        assert StackOpeners(old(states)) + [] == StackOpeners(old(states));
      }
      ok, event := ParseNode(block, indentless, base, f, budget, want);
    }

    /** An absent node is an empty scalar. */
    method EmptyThen(s: State, mark: Mark, ghost g: Grammar, ghost budget: int, ghost want: Result)
        returns (ok: bool, event: Event)
      requires Inside(OpenersIn(s, states)) && Waiting(s)
      requires Step(g, Scalar) == Doc(StackFrames(states) + FramesOf(s))
      requires MeasureOf(|tokens| - pos, s, states) < budget
      requires want == EmptyFirst(tokens, tagDirectives, pos, mark, s, states)
      modifies `state
      ensures Delivered(ok, event, g, budget, old(taken))
      ensures Gives(ok, event, want)
    {
      hide Delivered, Step, Texts, StackFrames, StackOpeners, StackWeight, Inside, ThenRest, Meaning, Ahead,
        FramesOf, Waiting, OpenersIn, MeasureOf;
      state := s;
      ok, event := true, EmptyScalar(mark);
      InState(event, g, budget, old(taken));
    }

    /** The end of a collection. */
    /** After a node or a collection, the state on top of the stack goes on. */
    method Resume(event: Event, ghost g: Grammar, ghost budget: int, ghost before: seq<string>, ghost want: Result)
      requires Inside(StackOpeners(states))
      requires Step(g, event.kind) == Doc(StackFrames(states))
      requires 6 * (|tokens| - pos) + StackWeight(states) < budget
      requires taken == AddText(before, TextOfEvent(event))
      requires want == EndFirst(tokens, tagDirectives, pos, event, states)
      modifies `state, `states
      ensures Delivered(true, event, g, budget, before) && Gives(true, event, want)
    {
      hide Step, Texts, StackFrames, StackOpeners, StackWeight, ValidMarks, ReadyDirectives, ThenRest, Remaining,
        ValidStack, ValidControl, ValidFirst, FramesOf, OpenersOf, OpenersIn, OpenIn, WeightOf, AddText, TextOfEvent;
      InsideStack(StackOpeners(states));
      PopState();
      RestingIs(state, tokens, pos);
      SingleThen(tokens, tagDirectives, event, pos, state, states);
    }

    lemma InsideStack(openers: seq<TokenType>)
      requires Inside(openers)
      ensures ValidStack(states) && states != []
    {
    }

    method Leave(kind: EventKind, start: Mark, end: Mark, ghost g: Grammar, ghost budget: int, ghost want: Result)
      returns (ok: bool, event: Event)
      requires Inside(StackOpeners(states))
      requires Step(g, kind) == Doc(StackFrames(states))
      requires 6 * (|tokens| - pos) + StackWeight(states) < budget
      requires want == EndFirst(tokens, tagDirectives, pos, MakeEvent(kind, start, end), states)
      modifies `state, `states
      ensures Delivered(ok, event, g, budget, old(taken))
      ensures Gives(ok, event, want)
    {
      hide Step, Texts, StackFrames, StackOpeners, StackWeight, Inside, Delivered, Gives, EndFirst;
      ok, event := true, MakeEvent(kind, start, end);
      Resume(event, g, budget, taken, want);
    }

    // ----- Documents -------------------------------------------------------------------

    method ParseStreamStart(ghost want: Result) returns (ok: bool, event: Event)
      requires Valid() && state == StreamStartState
      requires want == Ahead()
      modifies this
      ensures Delivered(ok, event, Start, old(MeasureOf(|tokens| - pos, state, states)), old(taken))
      ensures Gives(ok, event, want)
    {
      hide Valid, Delivered, Ahead, Texts, ValidMarks, MeasureOf, DocumentStartAt;
      EnteredStart();
      ok, event := false, EmptyScalar(NO_MARK);
      var token := Peek();
      if token == None {
        SetError(SCANNER_ERROR);
        return;
      }
      if token.value.typ != StreamStartToken {
        SetError("did not find expected <stream-start>");
        return;
      }
      state := ImplicitDocumentStartState;
      event := MakeEvent(StreamStart, token.value.start, token.value.end);
      Skip();
      ok := true;
      Between(event, Start, old(MeasureOf(|tokens| - pos, state, states)), old(taken));
    }

    /** Opens a document: its end waits at the bottom of the stack. */
    method OpenDocument(s: State, takesToken: bool, event: Event, ghost budget: int, ghost want: Result)
      requires error == None && pos < |tokens| && states == [] && !streamEndProduced && taken == Texts(tokens[..pos])
      requires s == (if takesToken then DocumentContentState else BlockNodeState)
      requires takesToken ==> tokens[pos].typ == DocumentStartToken
      requires ReadyDirectives(tagDirectives) && ValidMarks(tokens, marks, pushed, []) && event.kind == DocumentStart
      requires 6 * (|tokens| - pos) + 2 < (if takesToken then budget + 6 else budget)
      requires want == Emit(event, if takesToken then DocumentContentAt(tokens, tagDirectives, pos + 1)
                                   else DocumentNode(tokens, tagDirectives, pos))
      modifies `state, `states, `pos, `streamEndProduced, `taken
      ensures Delivered(true, event, Stream, budget, old(taken)) && Gives(true, event, want)
    {
      hide Valid, Delivered, Ahead, Texts, ReadyDirectives, ValidMarks, DocumentContentAt, DocumentNode, StackFrames,
        StackOpeners, StackWeight;
      states := states + [DocumentEndState];
      state := s;
      if takesToken {
        Skip();
      }
      assert [] + [DocumentEndState] == [DocumentEndState];
      Opened(event, budget, old(taken));
    }

    /** Extra document end indicators. */
    method SkipDocumentEnds()
      requires Valid() && state == DocumentStartState
      modifies `pos, `streamEndProduced, `taken
      ensures Valid() && old(pos) <= pos && taken == old(taken)
      ensures pos == SkipEnds(tokens, old(pos))
    {
      hide Texts, ValidMarks, StackOpeners, StackFrames, ReadyDirectives;
      while pos < |tokens| && tokens[pos].typ == DocumentEndToken
        invariant Valid() && old(pos) <= pos && taken == old(taken)
        invariant SkipEnds(tokens, old(pos)) == SkipEnds(tokens, pos)
      {
        Skip();
      }
    }

    method ParseDocumentStart(implicit: bool, ghost want: Result) returns (ok: bool, event: Event)
      requires Valid() && state == (if implicit then ImplicitDocumentStartState else DocumentStartState)
      requires want == Ahead()
      modifies this
      ensures Delivered(ok, event, Stream, old(MeasureOf(|tokens| - pos, state, states)), old(taken))
      ensures Gives(ok, event, want)
    {
      hide Valid, Delivered, Gives, Ahead, OpenIn, Texts, ReadyDirectives, DirectivesAt, WithDefaults,
        DistinctHandles, ValidMarks, MeasureOf, DocumentNode, DocumentStartAt, ExplicitFirst, StackFrames;
      EnteredStream();
      DocumentStartFirst(tokens, pos, implicit);
      ok, event := false, EmptyScalar(NO_MARK);
      ghost var budget := MeasureOf(|tokens| - pos, state, states);
      var token := Peek();
      if token == None {
        NoToken(tokens, pos);
        SetError(SCANNER_ERROR);
        return;
      }
      if !implicit {
        SkipDocumentEnds();
        EnteredStream();
        token := Peek();
        if token == None {
          SetError(SCANNER_ERROR);
          return;
        }
      }
      if implicit && !IsDirective(token.value) && token.value.typ != DocumentStartToken &&
          token.value.typ != StreamEndToken {
        ok, event := ParseImplicitDocument(budget, want);
      } else if token.value.typ != StreamEndToken {
        ok, event := ParseExplicitDocument(budget, want);
      } else {
        ok, event := EndStream(budget, want);
      }
    }

    /** The directives and the start of an explicit document. */
    method ParseImplicitDocument(ghost budget: int, ghost want: Result) returns (ok: bool, event: Event)
      requires error == None && pos < |tokens| && states == [] && !streamEndProduced && taken == Texts(tokens[..pos])
      requires tagDirectives == [] && ValidMarks(tokens, marks, pushed, []) && !IsDirective(tokens[pos])
      requires 6 * (|tokens| - pos) + 2 < budget
      requires want == Emit(MakeEvent(DocumentStart, tokens[pos].start, tokens[pos].end),
                            DocumentNode(tokens, WithDefaults([]), pos))
      modifies this
      ensures Delivered(ok, event, Stream, budget, old(taken)) && Gives(ok, event, want)
    {
      hide Delivered, Gives, Texts, ReadyDirectives, DirectivesAt, WithDefaults, ValidMarks, DocumentNode;
      NoDirectives(tokens, pos);
      event := MakeEvent(DocumentStart, tokens[pos].start, tokens[pos].end);
      var version, directives;
      ok, version, directives := ProcessDirectives();
      OpenDocument(BlockNodeState, false, event, budget, want);
    }

    method ParseExplicitDocument(ghost budget: int, ghost want: Result) returns (ok: bool, event: Event)
      requires error == None && pos < |tokens| && states == [] && !streamEndProduced && taken == Texts(tokens[..pos])
      requires tagDirectives == [] && ValidMarks(tokens, marks, pushed, [])
      requires 6 * (|tokens| - pos) <= budget && want == ExplicitFirst(tokens, pos)
      modifies this
      ensures Delivered(ok, event, Stream, budget, old(taken)) && Gives(ok, event, want)
    {
      hide Delivered, Gives, Texts, ReadyDirectives, DirectivesAt, WithDefaults, ValidMarks, DocumentContentAt;
      event := EmptyScalar(NO_MARK);
      var start := tokens[pos].start;
      var version, directives;
      ok, version, directives := ProcessDirectives();
      if !ok {
        Failed(event, Stream, budget, old(taken));
        return;
      }
      var token := tokens[pos];
      if token.typ != DocumentStartToken {
        ok := false;
        SetError("did not find expected <document start>");
        return;
      }
      event := MakeEvent(DocumentStart, start, token.end).(version := version, tagDirectives := directives);
      OpenDocument(DocumentContentState, true, event, budget, want);
    }

    method EndStream(ghost budget: int, ghost want: Result) returns (ok: bool, event: Event)
      requires Valid() && (state == ImplicitDocumentStartState || state == DocumentStartState)
      requires pos < |tokens| && tokens[pos].typ == StreamEndToken
      requires 6 * (|tokens| - pos) <= budget
      requires want == Single(MakeEvent(StreamEnd, tokens[pos].start, tokens[pos].end), pos + 1)
      modifies `state, `pos, `streamEndProduced, `taken
      ensures Delivered(ok, event, Stream, budget, old(taken)) && Gives(ok, event, want)
    {
      hide Valid, Delivered, Ahead, Texts, ValidMarks, MeasureOf;
      EnteredStream();
      var token := tokens[pos];
      state := EndState;
      ok, event := true, MakeEvent(StreamEnd, token.start, token.end);
      Skip();
      Ended(event, budget, old(taken));
    }

    method ParseDocumentContent(ghost want: Result) returns (ok: bool, event: Event)
      requires Valid() && state == DocumentContentState
      requires want == Ahead()
      modifies this
      ensures Delivered(ok, event, Doc([DocFrame(false)]), old(MeasureOf(|tokens| - pos, state, states)), old(taken))
      ensures Gives(ok, event, want)
    {
      hide Delivered, Gives, Valid, Inside, Ahead, OpenIn, Step, StackFrames, StackOpeners, StackWeight, NodeFirst,
        EndFirst, Texts;
      EnteredDocument();
      ok, event := false, EmptyScalar(NO_MARK);
      ghost var budget := MeasureOf(|tokens| - pos, state, states);
      var token := Peek();
      if token == None {
        SetError(SCANNER_ERROR);
        return;
      }
      if IsDirective(token.value) || token.value.typ == DocumentStartToken
         || token.value.typ == DocumentEndToken || token.value.typ == StreamEndToken {
        ok, event := EmptyAtTop(token.value.start, Doc([DocFrame(false)]), budget, want);
      } else {
        ok, event := ParseNode(true, false, [], DocFrame(false), budget, want);
      }
    }

    /** An absent node whose successor state is on the stack. */
    method EmptyAtTop(mark: Mark, ghost g: Grammar, ghost budget: int, ghost want: Result)
        returns (ok: bool, event: Event)
      requires Inside(StackOpeners(states))
      requires Step(g, Scalar) == Doc(StackFrames(states))
      requires 6 * (|tokens| - pos) + StackWeight(states) < budget
      requires want == EndFirst(tokens, tagDirectives, pos, EmptyScalar(mark), states)
      modifies `state, `states
      ensures Delivered(ok, event, g, budget, old(taken))
      ensures Gives(ok, event, want)
    {
      hide Step, Texts, StackFrames, StackOpeners, StackWeight, Inside, Delivered, Gives, EndFirst;
      ok, event := true, EmptyScalar(mark);
      Resume(event, g, budget, taken, want);
    }

    method ParseBlockNode(ghost want: Result) returns (ok: bool, event: Event)
      requires Valid() && state == BlockNodeState
      requires want == Ahead()
      modifies this
      ensures Delivered(ok, event, Doc([DocFrame(false)]), old(MeasureOf(|tokens| - pos, state, states)), old(taken))
      ensures Gives(ok, event, want)
    {
      hide Delivered, Gives, Valid, Inside, Ahead, OpenIn, Step, StackFrames, StackOpeners, StackWeight, NodeFirst,
        EndFirst, Texts;
      EnteredDocument();
      ok, event := false, EmptyScalar(NO_MARK);
      ghost var budget := MeasureOf(|tokens| - pos, state, states);
      if Peek() == None {
        SetError(SCANNER_ERROR);
        return;
      }
      ok, event := ParseNode(true, false, [], DocFrame(false), budget, want);
    }

    method ParseDocumentEnd(ghost want: Result) returns (ok: bool, event: Event)
      requires Valid() && state == DocumentEndState
      requires want == Ahead()
      modifies this
      ensures Delivered(ok, event, Doc([DocFrame(true)]), old(MeasureOf(|tokens| - pos, state, states)), old(taken))
      ensures Gives(ok, event, want)
    {
      hide Valid, Delivered, Ahead, Texts, ValidMarks, MeasureOf, DocumentStartAt;
      EnteredEnd();
      ok, event := false, EmptyScalar(NO_MARK);
      var token := Peek();
      if token == None {
        SetError(SCANNER_ERROR);
        return;
      }
      var start, end, implicit := token.value.start, token.value.start, true;
      if token.value.typ == DocumentEndToken {
        end := token.value.end;
        Skip();
        implicit := false;
      }
      tagDirectives := [];
      state := DocumentStartState;
      event := MakeEvent(DocumentEnd, start, end).(implicit := implicit);
      ok := true;
      Between(event, Doc([DocFrame(true)]), old(MeasureOf(|tokens| - pos, state, states)), old(taken));
    }

    method ProcessDirectives() returns (ok: bool, version: Option<(int, int)>, directives: seq<TagDirective>)
      requires error == None && pos < |tokens| && !streamEndProduced && tagDirectives == []
      requires taken == Texts(tokens[..pos])
      modifies `pos, `error, `tagDirectives, `streamEndProduced, `taken
      ensures old(pos) <= pos <= |tokens| && !streamEndProduced
      ensures taken == old(taken) == Texts(tokens[..pos])
      ensures !ok ==> error != None
      ensures ok ==> error == None && pos < |tokens|
      ensures ok ==> ReadyDirectives(tagDirectives)
      ensures ok == (DirectivesAt(tokens, old(pos), None, []) != None)
      ensures ok ==> DirectivesAt(tokens, old(pos), None, []) == Some(Directives(version, directives, pos))
      ensures ok ==> tagDirectives == WithDefaults(directives)
    {
      hide HasHandle, DistinctHandles, ReadyDirectives, Texts, DirectivesAt, WithDefaults;
      ok, version, directives := ReadDirectives();
      if ok {
        AppendDefaultDirectives();
      }
    }

    method ReadDirectives() returns (ok: bool, version: Option<(int, int)>, directives: seq<TagDirective>)
      requires error == None && pos < |tokens| && !streamEndProduced && tagDirectives == []
      requires taken == Texts(tokens[..pos])
      modifies `pos, `error, `tagDirectives, `streamEndProduced, `taken
      ensures old(pos) <= pos <= |tokens| && !streamEndProduced
      ensures taken == old(taken) == Texts(tokens[..pos])
      ensures !ok ==> error != None
      ensures ok ==> error == None && pos < |tokens| && tagDirectives == directives && DistinctHandles(directives)
      ensures ok == (DirectivesAt(tokens, old(pos), None, []) != None)
      ensures ok ==> DirectivesAt(tokens, old(pos), None, []) == Some(Directives(version, directives, pos))
    {
      hide HasHandle, DistinctHandles, Texts;
      NoHandles();
      version, directives, ok := None, [], false;
      var token := Peek();
      while IsDirective(token.value)
        invariant old(pos) <= pos < |tokens| && token == Peek()
        invariant error == None && !streamEndProduced && taken == old(taken) == Texts(tokens[..pos])
        invariant tagDirectives == directives && DistinctHandles(tagDirectives)
        invariant DirectivesAt(tokens, old(pos), None, []) == DirectivesAt(tokens, pos, version, directives)
        decreases |tokens| - pos
      {
        var directiveOk;
        directiveOk, version := ProcessDirective(version);
        if !directiveOk {
          return;
        }
        if token.value.typ == TagDirectiveToken {
          directives := directives + [TagDirective(token.value.value, token.value.prefix)];
        }
        Skip();
        token := Peek();
        if token == None {
          SetError(SCANNER_ERROR);
          return;
        }
      }
      ok := true;
    }

    method AppendDefaultDirectives()
      requires error == None && DistinctHandles(tagDirectives)
      modifies `error, `tagDirectives
      ensures error == None && ReadyDirectives(tagDirectives)
      ensures tagDirectives == WithDefaults(old(tagDirectives))
    {
      hide HasHandle, DistinctHandles;
      var firstOk := AppendTagDirective(DEFAULT_DIRECTIVES[0], true);
      ghost var withFirst := tagDirectives;
      var secondOk := AppendTagDirective(DEFAULT_DIRECTIVES[1], true);
      KeepsHandle(withFirst, tagDirectives, "!");
    }

    /** One directive before a document. */
    method ProcessDirective(version: Option<(int, int)>) returns (ok: bool, newVersion: Option<(int, int)>)
      requires error == None && pos < |tokens| && IsDirective(tokens[pos])
      requires DistinctHandles(tagDirectives)
      modifies `error, `tagDirectives
      ensures !ok ==> error != None
      ensures ok ==> error == None && DistinctHandles(tagDirectives)
      ensures tokens[pos].typ == VersionDirectiveToken ==>
                ok == (version == None && tokens[pos].major == 1 && tokens[pos].minor == 1) &&
                    tagDirectives == old(tagDirectives)
      ensures tokens[pos].typ == TagDirectiveToken ==> ok == !HasHandle(old(tagDirectives), tokens[pos].value)
      ensures ok && tokens[pos].typ == TagDirectiveToken ==>
                tagDirectives == old(tagDirectives) + [TagDirective(tokens[pos].value, tokens[pos].prefix)]
      ensures ok ==> newVersion == if tokens[pos].typ == VersionDirectiveToken then Some((1, 1)) else version
    {
      hide HasHandle;
      var token := tokens[pos];
      ok, newVersion := false, version;
      if token.typ == VersionDirectiveToken {
        if version != None {
          SetError("found duplicate %YAML directive");
          return;
        }
        if token.major != 1 || token.minor != 1 {
          SetError("found incompatible YAML document");
          return;
        }
        newVersion := Some((token.major, token.minor));
        ok := true;
      } else {
        ok := AppendTagDirective(TagDirective(token.value, token.prefix), false);
      }
    }

    method AppendTagDirective(value: TagDirective, allowDuplicates: bool) returns (ok: bool)
      requires error == None && DistinctHandles(tagDirectives)
      modifies `error, `tagDirectives
      ensures DistinctHandles(tagDirectives) && HasHandle(tagDirectives, value.handle)
      ensures tagDirectives == AddDefault(old(tagDirectives), value)
      ensures ok <==> allowDuplicates || !HasHandle(old(tagDirectives), value.handle)
      ensures if ok then error == None else error != None
    {
      for i := 0 to |tagDirectives|
        invariant forall j :: 0 <= j < i ==> tagDirectives[j].handle != value.handle
        invariant tagDirectives == old(tagDirectives) && error == None
      {
        if tagDirectives[i].handle == value.handle {
          if allowDuplicates {
            return true;
          }
          SetError("found duplicate %TAG directive");
          return false;
        }
      }
      tagDirectives := tagDirectives + [value];
      assert tagDirectives[|tagDirectives| - 1].handle == value.handle;
      ok := true;
    }

    // ----- Nodes -----------------------------------------------------------------------

    /** Takes the next token if it is of this type; there must be one behind it. */
    method TakeIf(typ: TokenType) returns (ok: bool, token: Option<Token>)
      requires error == None && pos <= |tokens| && !streamEndProduced && taken == Texts(tokens[..pos])
      requires typ == AnchorToken || typ == TagToken
      modifies `pos, `error, `streamEndProduced, `taken
      ensures old(pos) <= pos <= |tokens| && !streamEndProduced
      ensures taken == old(taken) == Texts(tokens[..pos])
      ensures if ok then error == None else error != None
      ensures var n := if old(pos) < |tokens| && tokens[old(pos)].typ == typ then old(pos) + 1 else old(pos);
        ok == (n < |tokens|) && (ok ==> pos == n && token == if n == old(pos) then None else Some(tokens[old(pos)]))
      ensures forall openers :: old(Inside(openers)) && ok ==> Inside(openers)
    {
      hide Texts, Inside;
      ok, token := false, Peek();
      if token == None {
        SetError(SCANNER_ERROR);
        return;
      }
      if token.value.typ != typ {
        return true, None;
      }
      Skip();
      if pos == |tokens| {
        SetError(SCANNER_ERROR);
        return;
      }
      ok := true;
    }

    /** The anchor and the tag before a node, in either order. */
    method ParseProperties() returns (ok: bool, anchor: Option<string>, tag: Option<Token>, start: Mark, end: Mark)
      requires error == None && pos < |tokens| && !streamEndProduced && taken == Texts(tokens[..pos])
      modifies `pos, `error, `streamEndProduced, `taken
      ensures old(pos) <= pos <= |tokens| && !streamEndProduced
      ensures taken == old(taken) == Texts(tokens[..pos])
      ensures if ok then error == None else error != None
      ensures ok == (PropertiesEnd(tokens, old(pos)) < |tokens|)
      ensures ok ==> pos == PropertiesEnd(tokens, old(pos))
      ensures ok ==> anchor == AnchorIn(tokens[old(pos)..pos]) && tag == TagIn(tokens[old(pos)..pos])
      ensures ok ==> start == tokens[old(pos)].start
      ensures ok ==> end == if pos == old(pos) then start else tokens[pos - 1].end
      ensures forall openers :: old(Inside(openers)) && ok ==> Inside(openers)
    {
      hide AnchorIn, TagIn, Texts, Inside;
      anchor, tag, ok := None, None, false;
      ghost var from := pos;
      start, end := tokens[pos].start, tokens[pos].start;
      if tokens[pos].typ == AnchorToken {
        anchor := Some(tokens[pos].value);
        end := tokens[pos].end;
        Skip();
        ok, tag := TakeIf(TagToken);
        if !ok {
          return;
        }
        end := if tag == None then end else tag.value.end;
      } else if tokens[pos].typ == TagToken {
        tag := Some(tokens[pos]);
        end := tokens[pos].end;
        Skip();
        var token;
        ok, token := TakeIf(AnchorToken);
        if !ok {
          return;
        }
        anchor := if token == None then None else Some(token.value.value);
        end := if token == None then end else token.value.end;
      }
      PropertiesAre(tokens, from, pos);
      ok := true;
    }

    /** The tag a tag token stands for under the directives in force. */
    method ResolveTag(token: Option<Token>) returns (ok: bool, tag: string)
      modifies `error
      ensures ok ==> error == old(error)
      ensures !ok ==> error != None
      ensures if ok then Resolved(token, tagDirectives) == Some(tag) else Resolved(token, tagDirectives) == None
      ensures forall openers :: old(Inside(openers)) && ok ==> Inside(openers)
    {
      if token == None {
        return true, "";
      }
      if token.value.value == "" {
        return true, token.value.suffix;
      }
      tag := "";
      ghost var prefix := PrefixOf(tagDirectives, token.value.value);
      for i := 0 to |tagDirectives|
        invariant tag == "" && error == old(error)
        invariant prefix == PrefixOf(tagDirectives[i..], token.value.value)
      {
        assert tagDirectives[i..][1..] == tagDirectives[i + 1..];
        if tagDirectives[i].handle == token.value.value {
          tag := tagDirectives[i].prefix + token.value.suffix;
          break;
        }
      }
      if tag == "" {
        SetError("found undefined tag handle");
        return false, tag;
      }
      ok := true;
    }

    /** A node inside the production `f`; the top of the stack waits for it to be completed. */
    method ParseNode(block: bool, indentless: bool, ghost base: seq<Frame>, ghost f: Frame, ghost budget: int,
        ghost want: Result)
      returns (ok: bool, event: Event)
      requires Inside(StackOpeners(states)) && pos < |tokens|
      requires WantsNode(f) && StackFrames(states) == base + [Fill(f)]
      requires 6 * (|tokens| - pos) + StackWeight(states) + (if indentless then 1 else 0) < budget
      requires want == NodeFirst(tokens, tagDirectives, pos, block, indentless, states)
      modifies this
      ensures Delivered(ok, event, Doc(base + [f]), budget, old(taken))
      ensures Gives(ok, event, want)
    {
      hide Step, Texts, StackFrames, StackOpeners, StackWeight, Inside, Delivered, Gives, NodeFirst, ContentFirst,
        EndFirst, AnchorIn, TagIn, Resolved, PropertiesEnd, Fill, WantsNode;
      InsideTaken(StackOpeners(states));
      NodeIs(tokens, tagDirectives, pos, block, indentless, states);
      var token := tokens[pos];
      if token.typ == AliasToken {
        Skip();
        event := MakeEvent(Alias, token.start, token.end).(anchor := Some(token.value));
        CompleteNode(event, base, f, budget, old(taken), want);
        return true, event;
      }
      var anchor, tagToken, start, end;
      ok, anchor, tagToken, start, end := ParseProperties();
      event := EmptyScalar(start);
      if !ok {
        Failed(event, Doc(base + [f]), budget, old(taken));
        return;
      }
      var tag;
      ok, tag := ResolveTag(tagToken);
      if !ok {
        Failed(event, Doc(base + [f]), budget, old(taken));
        return;
      }
      ok, event := ParseContent(block, indentless, anchor, tag, start, end, base, f, budget, want);
    }

    /** A node that is only one event. */
    method CompleteNode(event: Event, ghost base: seq<Frame>, ghost f: Frame, ghost budget: int,
        ghost before: seq<string>, ghost want: Result)
      requires Inside(StackOpeners(states)) && (event.kind == Alias || event.kind == Scalar)
      requires WantsNode(f) && StackFrames(states) == base + [Fill(f)]
      requires 6 * (|tokens| - pos) + StackWeight(states) < budget
      requires taken == AddText(before, TextOfEvent(event))
      requires want == EndFirst(tokens, tagDirectives, pos, event, states)
      modifies `state, `states
      ensures Delivered(true, event, Doc(base + [f]), budget, before)
      ensures Gives(true, event, want)
    {
      hide Step, Texts, StackFrames, StackOpeners, StackWeight, Inside, Delivered, Gives, EndFirst;
      StepsIn(base, f);
      Resume(event, Doc(base + [f]), budget, before, want);
    }

    /** The start of a collection. */
    method OpenNode(s: State, event: Event, ghost base: seq<Frame>, ghost f: Frame, ghost budget: int,
        ghost want: Result)
      requires Inside(StackOpeners(states))
      requires WantsNode(f) && StackFrames(states) == base + [Fill(f)]
      requires ValidFirst(tokens, pos, s) && OpenersOf(s) == []
      requires (event.kind == SequenceStart && FramesOf(s) == [SeqFrame])
            || (event.kind == MappingStart && FramesOf(s) == [MapFrame(true)])
      requires 6 * (|tokens| - pos) + StackWeight(states) + WeightOf(s) < budget
      requires want == StartFirst(tokens, tagDirectives, pos, event, s, states)
      modifies `state
      ensures Delivered(true, event, Doc(base + [f]), budget, old(taken))
      ensures Gives(true, event, want)
    {
      hide Step, Texts, ValidMarks, StackFrames, StackOpeners, StackWeight, ReadyDirectives, ThenRest, Meaning,
        Remaining;
      StepsIn(base, f);
      state := s;
      Unfold(tokens, tagDirectives, state, states, pos);
    }

    /** The content of a node whose properties have been taken. */
    method ParseContent(block: bool, indentless: bool, anchor: Option<string>, tag: string, start: Mark, end: Mark,
        ghost base: seq<Frame>, ghost f: Frame, ghost budget: int, ghost want: Result)
      returns (ok: bool, event: Event)
      requires Inside(StackOpeners(states)) && pos < |tokens|
      requires taken == Texts(tokens[..pos])
      requires WantsNode(f) && StackFrames(states) == base + [Fill(f)]
      requires 6 * (|tokens| - pos) + StackWeight(states) + (if indentless then 1 else 0) < budget
      requires want == ContentFirst(tokens, tagDirectives, pos, block, indentless, anchor, tag, start, end, states)
      modifies this
      ensures Delivered(ok, event, Doc(base + [f]), budget, old(taken))
      ensures Gives(ok, event, want)
    {
      hide Step, Texts, StackFrames, StackOpeners, StackWeight, Inside, Delivered, ScalarEvent, Fill, WantsNode,
        Gives, ContentFirst, StartFirst, EndFirst, FramesOf, OpenersOf, WeightOf, ValidFirst;
      InsideTaken(StackOpeners(states));
      IndentlessStart(tokens, pos);
      ContentThen(tokens, tagDirectives, pos, block, indentless, anchor, tag, start, end, states);
      var token := tokens[pos];
      var implicit := tag == "";
      event := MakeEvent(SequenceStart, start, token.end).(anchor := anchor, tag := tag, implicit := implicit);
      ok := true;
      if indentless && token.typ == BlockEntryToken {
        event := event.(style := Block);
        OpenNode(IndentlessSequenceEntryState, event, base, f, budget, want);
      } else if token.typ == ScalarToken {
        event := ScalarEvent(event, token);
        Skip();
        CompleteNode(event, base, f, budget, old(taken), want);
      } else {
        ok, event := ParseCollection(block, indentless, anchor, tag, start, end, event, base, f, budget, want);
      }
    }

    method ParseCollection(block: bool, indentless: bool, anchor: Option<string>, tag: string, start: Mark, end: Mark,
        e: Event, ghost base: seq<Frame>, ghost f: Frame, ghost budget: int, ghost want: Result)
      returns (ok: bool, event: Event)
      requires Inside(StackOpeners(states)) && pos < |tokens|
      requires !(indentless && tokens[pos].typ == BlockEntryToken) && tokens[pos].typ != ScalarToken
      requires e == MakeEvent(SequenceStart, start, tokens[pos].end).(anchor := anchor, tag := tag,
        implicit := tag == "")
      requires WantsNode(f) && StackFrames(states) == base + [Fill(f)]
      requires 6 * (|tokens| - pos) + StackWeight(states) < budget
      requires want == ContentFirst(tokens, tagDirectives, pos, block, indentless, anchor, tag, start, end, states)
      modifies this
      ensures Delivered(ok, event, Doc(base + [f]), budget, old(taken))
      ensures Gives(ok, event, want)
    {
      hide Step, Texts, StackFrames, StackOpeners, StackWeight, Inside, Delivered, Fill, WantsNode, Gives,
        ContentFirst, StartFirst, EndFirst, FramesOf, OpenersOf, WeightOf, ValidFirst;
      InsideTaken(StackOpeners(states));
      FirstRows(tokens, pos);
      ContentThen(tokens, tagDirectives, pos, block, indentless, anchor, tag, start, end, states);
      event, ok := e, true;
      if tokens[pos].typ == FlowSequenceStartToken {
        event := event.(style := Flow);
        OpenNode(FlowSequenceFirstEntryState, event, base, f, budget, want);
      } else if tokens[pos].typ == FlowMappingStartToken {
        event := event.(kind := MappingStart, style := Flow);
        OpenNode(FlowMappingFirstKeyState, event, base, f, budget, want);
      } else {
        ok, event := ParseBlockContent(block, indentless, anchor, tag, start, end, event, base, f, budget, want);
      }
    }

    /** The content of a node that is neither a scalar nor a flow collection. */
    method ParseBlockContent(block: bool, indentless: bool, anchor: Option<string>, tag: string, start: Mark, end: Mark,
        e: Event, ghost base: seq<Frame>, ghost f: Frame, ghost budget: int, ghost want: Result)
      returns (ok: bool, event: Event)
      requires Inside(StackOpeners(states)) && pos < |tokens|
      requires !(indentless && tokens[pos].typ == BlockEntryToken) && tokens[pos].typ != ScalarToken
      requires tokens[pos].typ != FlowSequenceStartToken && tokens[pos].typ != FlowMappingStartToken
      requires e == MakeEvent(SequenceStart, start, tokens[pos].end).(anchor := anchor, tag := tag,
        implicit := tag == "")
      requires WantsNode(f) && StackFrames(states) == base + [Fill(f)]
      requires 6 * (|tokens| - pos) + StackWeight(states) < budget
      requires want == ContentFirst(tokens, tagDirectives, pos, block, indentless, anchor, tag, start, end, states)
      modifies this
      ensures Delivered(ok, event, Doc(base + [f]), budget, old(taken))
      ensures Gives(ok, event, want)
    {
      hide Step, Texts, StackFrames, StackOpeners, StackWeight, Inside, Delivered, Fill, WantsNode, Gives,
        ContentFirst, StartFirst, EndFirst, FramesOf, OpenersOf, WeightOf, ValidFirst;
      InsideTaken(StackOpeners(states));
      FirstRows(tokens, pos);
      ContentThen(tokens, tagDirectives, pos, block, indentless, anchor, tag, start, end, states);
      var token := tokens[pos];
      event, ok := e, true;
      if block && token.typ == BlockSequenceStartToken {
        event := event.(style := Block);
        OpenNode(BlockSequenceFirstEntryState, event, base, f, budget, want);
      } else if block && token.typ == BlockMappingStartToken {
        event := event.(kind := MappingStart, style := Block);
        OpenNode(BlockMappingFirstKeyState, event, base, f, budget, want);
      } else if (anchor != None && anchor.value != "") || tag != "" {
        event := event.(kind := Scalar, end := end, style := Plain);
        CompleteNode(event, base, f, budget, old(taken), want);
      } else {
        SetError("did not find expected node content");
        ok := false;
      }
    }

    // ----- Block collections -----------------------------------------------------------

    /** The next item of a block sequence, or its end. */
    method ParseBlockItem(ghost budget: int, ghost want: Result) returns (ok: bool, event: Event)
      requires Inside(StackOpeners(states) + [BlockSequenceStartToken])
      requires 6 * (|tokens| - pos) + StackWeight(states) <= budget
      requires want == ThenRest(tokens, tagDirectives, Meaning(tokens, tagDirectives, BlockSequenceEntryState, pos),
        states)
      modifies this
      ensures Delivered(ok, event, Doc(StackFrames(old(states)) + [SeqFrame]), budget, old(taken))
      ensures Gives(ok, event, want)
    {
      hide Delivered, Texts, StackFrames, StackOpeners, StackWeight, Gives, NodeFirst, EmptyFirst, EndFirst,
        ThenRest, Meaning, Inside, FramesOf, OpenersOf, WeightOf, Waiting, InCollection, OpenersIn, EmptyScalar,
        MakeEvent, Step;
      BlockSequenceRows();
      OnTop(BlockSequenceEntryState, states, |tokens| - pos);
      InsideTaken(StackOpeners(states) + [BlockSequenceStartToken]);
      BlockItemsFirst(tokens, tagDirectives, pos, states);
      ok, event := false, EmptyScalar(NO_MARK);
      ghost var frames, openers := StackFrames(states), StackOpeners(states);
      StepsIn(frames, SeqFrame);
      var token := Peek();
      if token == None {
        SetError(SCANNER_ERROR);
        return;
      }
      if token.value.typ == BlockEntryToken {
        var mark := token.value.end;
        Skip();
        token := Peek();
        if token == None {
          SetError(SCANNER_ERROR);
          return;
        }
        if token.value.typ != BlockEntryToken && token.value.typ != BlockEndToken {
          ok, event := NodeThen(BlockSequenceEntryState, true, false, frames, SeqFrame, budget, want);
        } else {
          ok, event := EmptyThen(BlockSequenceEntryState, mark, Doc(frames + [SeqFrame]), budget, want);
        }
      } else if token.value.typ == BlockEndToken {
        PopMark(openers, BlockSequenceStartToken);
        Skip();
        ok, event := Leave(SequenceEnd, token.value.start, token.value.end, Doc(frames + [SeqFrame]), budget, want);
      } else {
        PopMark(openers, BlockSequenceStartToken);
        SetError("did not find expected '-' indicator");
      }
    }

    method ParseBlockSequenceEntry(first: bool, ghost want: Result) returns (ok: bool, event: Event)
      requires Valid() && state == (if first then BlockSequenceFirstEntryState else BlockSequenceEntryState)
      requires want == Ahead()
      modifies this
      ensures Delivered(ok, event, old(OpenIn(state, states)), old(MeasureOf(|tokens| - pos, state, states)),
        old(taken))
      ensures Gives(ok, event, want)
    {
      hide Delivered, Gives, Valid, Inside, OpenIn, Ahead, Texts, StackFrames, StackOpeners, StackWeight, ThenRest,
        Meaning, FramesOf, OpenersOf, WeightOf, Waiting, InCollection, OpenersIn, EmptyScalar, MakeEvent, Step;
      BlockSequenceRows();
      OnTop(state, states, |tokens| - pos);
      Entered();
      UnfoldFirst(tokens, tagDirectives, pos);
      ok, event := false, EmptyScalar(NO_MARK);
      ghost var budget := MeasureOf(|tokens| - pos, state, states);
      ghost var frames, openers := StackFrames(states), StackOpeners(states);
      if first {
        PushMark();
      }
      ok, event := ParseBlockItem(budget, want);
    }

    method ParseIndentlessSequenceEntry(ghost want: Result) returns (ok: bool, event: Event)
      requires Valid() && state == IndentlessSequenceEntryState
      requires want == Ahead()
      modifies this
      ensures Delivered(ok, event, old(OpenIn(state, states)), old(MeasureOf(|tokens| - pos, state, states)),
        old(taken))
      ensures Gives(ok, event, want)
    {
      hide Delivered, Texts, StackFrames, StackOpeners, StackWeight, Gives, NodeFirst, EmptyFirst, EndFirst,
        ThenRest, Indentless, Meaning, Valid, OpenIn, Ahead, Inside, FramesOf, OpenersOf, WeightOf, Waiting,
        InCollection, OpenersIn, EmptyScalar, MakeEvent, Step;
      IndentlessRow();
      OnTop(IndentlessSequenceEntryState, states, |tokens| - pos);
      OnTop(state, states, |tokens| - pos);
      Entered();
      IndentlessFirst(tokens, tagDirectives, pos, states);
      ok, event := false, EmptyScalar(NO_MARK);
      ghost var budget := MeasureOf(|tokens| - pos, state, states);
      ghost var frames, openers := StackFrames(states), StackOpeners(states);
      StepsIn(frames, SeqFrame);
      var token := Peek();
      if token == None {
        SetError(SCANNER_ERROR);
        return;
      }
      if token.value.typ == BlockEntryToken {
        var mark := token.value.end;
        Skip();
        token := Peek();
        if token == None {
          SetError(SCANNER_ERROR);
          return;
        }
        if token.value.typ != BlockEntryToken && token.value.typ != KeyToken
           && token.value.typ != ValueToken && token.value.typ != BlockEndToken {
          ok, event := NodeThen(IndentlessSequenceEntryState, true, false, frames, SeqFrame, budget, want);
        } else {
          ok, event := EmptyThen(IndentlessSequenceEntryState, mark, Doc(frames + [SeqFrame]), budget, want);
        }
      } else {
        ok, event := Leave(SequenceEnd, token.value.start, token.value.start, Doc(frames + [SeqFrame]), budget, want);
      }
    }

    /** The next key of a block mapping, or its end. */
    method ParseBlockKey(ghost budget: int, ghost want: Result) returns (ok: bool, event: Event)
      requires Inside(StackOpeners(states) + [BlockMappingStartToken])
      requires 6 * (|tokens| - pos) + StackWeight(states) <= budget
      requires want == ThenRest(tokens, tagDirectives, Meaning(tokens, tagDirectives, BlockMappingKeyState, pos),
        states)
      modifies this
      ensures Delivered(ok, event, Doc(StackFrames(old(states)) + [MapFrame(true)]), budget, old(taken))
      ensures Gives(ok, event, want)
    {
      hide Delivered, Texts, StackFrames, StackOpeners, StackWeight, Gives, NodeFirst, EmptyFirst, EndFirst,
        ThenRest, Meaning, Inside, FramesOf, OpenersOf, WeightOf, Waiting, InCollection, OpenersIn, EmptyScalar,
        MakeEvent, Step;
      BlockMappingRows();
      OnTop(BlockMappingValueState, states, |tokens| - pos);
      InsideTaken(StackOpeners(states) + [BlockMappingStartToken]);
      BlockKeysFirst(tokens, tagDirectives, pos, states);
      ok, event := false, EmptyScalar(NO_MARK);
      ghost var frames, openers := StackFrames(states), StackOpeners(states);
      StepsIn(frames, MapFrame(true));
      var token := Peek();
      if token == None {
        SetError(SCANNER_ERROR);
        return;
      }
      if token.value.typ == KeyToken {
        var mark := token.value.end;
        Skip();
        token := Peek();
        if token == None {
          SetError(SCANNER_ERROR);
          return;
        }
        if token.value.typ != KeyToken && token.value.typ != ValueToken && token.value.typ != BlockEndToken {
          ok, event := NodeThen(BlockMappingValueState, true, true, frames, MapFrame(true), budget, want);
        } else {
          ok, event := EmptyThen(BlockMappingValueState, mark, Doc(frames + [MapFrame(true)]), budget, want);
        }
      } else if token.value.typ == BlockEndToken {
        PopMark(openers, BlockMappingStartToken);
        Skip();
        ok, event := Leave(MappingEnd, token.value.start, token.value.end, Doc(frames + [MapFrame(true)]), budget,
            want);
      } else {
        PopMark(openers, BlockMappingStartToken);
        SetError("did not find expected key");
      }
    }

    method ParseBlockMappingKey(first: bool, ghost want: Result) returns (ok: bool, event: Event)
      requires Valid() && state == (if first then BlockMappingFirstKeyState else BlockMappingKeyState)
      requires want == Ahead()
      modifies this
      ensures Delivered(ok, event, old(OpenIn(state, states)), old(MeasureOf(|tokens| - pos, state, states)),
        old(taken))
      ensures Gives(ok, event, want)
    {
      hide Delivered, Texts, StackFrames, StackOpeners, StackWeight, Gives, ThenRest, Meaning, Valid, OpenIn, Ahead,
        Inside, FramesOf, OpenersOf, WeightOf, Waiting, InCollection, OpenersIn, EmptyScalar, MakeEvent, Step;
      BlockMappingRows();
      OnTop(state, states, |tokens| - pos);
      Entered();
      UnfoldFirst(tokens, tagDirectives, pos);
      ok, event := false, EmptyScalar(NO_MARK);
      ghost var budget := MeasureOf(|tokens| - pos, state, states);
      ghost var frames, openers := StackFrames(states), StackOpeners(states);
      if first {
        PushMark();
      }
      ok, event := ParseBlockKey(budget, want);
    }

    method ParseBlockMappingValue(ghost want: Result) returns (ok: bool, event: Event)
      requires Valid() && state == BlockMappingValueState
      requires want == Ahead()
      modifies this
      ensures Delivered(ok, event, old(OpenIn(state, states)), old(MeasureOf(|tokens| - pos, state, states)),
        old(taken))
      ensures Gives(ok, event, want)
    {
      hide Delivered, Texts, StackFrames, StackOpeners, StackWeight, Gives, NodeFirst, EmptyFirst, EndFirst,
        ThenRest, BlockValue, Meaning, Valid, OpenIn, Ahead, Inside, FramesOf, OpenersOf, WeightOf, Waiting,
        InCollection, OpenersIn, EmptyScalar, MakeEvent, Step;
      BlockMappingRows();
      OnTop(BlockMappingKeyState, states, |tokens| - pos);
      OnTop(state, states, |tokens| - pos);
      Entered();
      BlockValueFirst(tokens, tagDirectives, pos, states);
      ok, event := false, EmptyScalar(NO_MARK);
      ghost var budget := MeasureOf(|tokens| - pos, state, states);
      ghost var frames, openers := StackFrames(states), StackOpeners(states);
      StepsIn(frames, MapFrame(false));
      assert [MapFrame(true)] == [Fill(MapFrame(false))];
      var token := Peek();
      if token == None {
        SetError(SCANNER_ERROR);
        return;
      }
      if token.value.typ == ValueToken {
        Skip();
        ok, event := ParseValueNode(token.value.end, budget, want);
      } else {
        ok, event := EmptyThen(BlockMappingKeyState, token.value.start, Doc(frames + [MapFrame(false)]), budget, want);
      }
    }

    /** The value behind VALUE, which may be absent. */
    method ParseValueNode(mark: Mark, ghost budget: int, ghost want: Result) returns (ok: bool, event: Event)
      requires Inside(StackOpeners(states) + [BlockMappingStartToken])
      requires 6 * (|tokens| - pos) + StackWeight(states) + 1 < budget
      requires want ==
        if pos >= |tokens| then FAIL
        else if tokens[pos].typ != KeyToken && tokens[pos].typ != ValueToken && tokens[pos].typ != BlockEndToken then
          NodeFirst(tokens, tagDirectives, pos, true, true, states + [BlockMappingKeyState])
        else EmptyFirst(tokens, tagDirectives, pos, mark, BlockMappingKeyState, states)
      modifies this
      ensures Delivered(ok, event, Doc(StackFrames(old(states)) + [MapFrame(false)]), budget, old(taken))
      ensures Gives(ok, event, want)
    {
      hide Delivered, Texts, StackFrames, StackOpeners, StackWeight, Gives, NodeFirst, EmptyFirst, Inside, FramesOf,
        OpenersOf, WeightOf, Waiting, OpenersIn, EmptyScalar, MakeEvent, Step;
      BlockMappingRows();
      OnTop(BlockMappingKeyState, states, |tokens| - pos);
      InsideTaken(StackOpeners(states) + [BlockMappingStartToken]);
      ghost var frames := StackFrames(states);
      StepsIn(frames, MapFrame(false));
      assert [MapFrame(true)] == [Fill(MapFrame(false))];
      ok, event := false, EmptyScalar(NO_MARK);
      var token := Peek();
      if token == None {
        SetError(SCANNER_ERROR);
        return;
      }
      if token.value.typ != KeyToken && token.value.typ != ValueToken && token.value.typ != BlockEndToken {
        ok, event := NodeThen(BlockMappingKeyState, true, true, frames, MapFrame(false), budget, want);
      } else {
        ok, event := EmptyThen(BlockMappingKeyState, mark, Doc(frames + [MapFrame(false)]), budget, want);
      }
    }

    // ----- Flow collections ------------------------------------------------------------

    /** Between the entries of a flow collection there is a ','. */
    method FlowSeparator(last: TokenType, ghost openers: seq<TokenType>, ghost opener: TokenType)
      returns (ok: bool)
      requires Inside(openers + [opener]) && pos < |tokens|
      modifies `pos, `marks, `pushed, `error, `streamEndProduced, `taken
      ensures ok ==> Inside(openers + [opener])
      ensures Separated(tokens, old(pos), last) == if ok then Some(pos) else None
      ensures taken == old(taken)
      ensures !ok ==> error != None
    {
      hide Texts, Inside, Delivered, Gives, Separated;
      InsideTaken(openers + [opener]);
      SeparatedAt(tokens, pos, last);
      if tokens[pos].typ == last {
        return true;
      }
      if tokens[pos].typ != FlowEntryToken {
        PopMark(openers, opener);
        SetError("did not find expected ',' or the end of a flow collection");
        return false;
      }
      Skip();
      ok := Peek() != None;
      if !ok {
        SetError(SCANNER_ERROR);
      }
    }

    /** The next item of a flow sequence, or its end. */
    method ParseFlowItem(ghost budget: int, ghost want: Result) returns (ok: bool, event: Event)
      requires Inside(StackOpeners(states) + [FlowSequenceStartToken]) && pos < |tokens|
      requires 6 * (|tokens| - pos) + StackWeight(states)
        + (if tokens[pos].typ == FlowSequenceEndToken then 0 else 6) <= budget
      requires want == ThenRest(tokens, tagDirectives, FlowItem(tokens, tagDirectives, pos), states)
      modifies this
      ensures Delivered(ok, event, Doc(StackFrames(old(states)) + [SeqFrame]), budget, old(taken))
      ensures Gives(ok, event, want)
    {
      hide Delivered, Texts, StackFrames, StackOpeners, StackWeight, Gives, NodeFirst, EmptyFirst, EndFirst,
        ThenRest, FlowItem, Inside, FramesOf, OpenersOf, WeightOf, Waiting, InCollection, OpenersIn, EmptyScalar,
        MakeEvent, Step;
      FlowSequenceRows();
      OnTop(FlowSequenceEntryState, states, |tokens| - pos);
      OnTop(FlowSequenceEntryMappingKeyState, states, |tokens| - pos);
      InsideTaken(StackOpeners(states) + [FlowSequenceStartToken]);
      FlowItemFirst(tokens, tagDirectives, pos, states);
      ghost var frames, openers := StackFrames(states), StackOpeners(states);
      StepsIn(frames, SeqFrame);
      var token := tokens[pos];
      if token.typ == KeyToken {
        Skip();
        ok, event := OpenPair(token, Doc(frames + [SeqFrame]), budget, want);
      } else if token.typ != FlowSequenceEndToken {
        ok, event := NodeThen(FlowSequenceEntryState, false, false, frames, SeqFrame, budget, want);
      } else {
        PopMark(openers, FlowSequenceStartToken);
        Skip();
        ok, event := Leave(SequenceEnd, token.start, token.end, Doc(frames + [SeqFrame]), budget, want);
      }
    }

    method ParseFlowSequenceEntry(first: bool, ghost want: Result) returns (ok: bool, event: Event)
      requires Valid() && state == (if first then FlowSequenceFirstEntryState else FlowSequenceEntryState)
      requires want == Ahead()
      modifies this
      ensures Delivered(ok, event, old(OpenIn(state, states)), old(MeasureOf(|tokens| - pos, state, states)),
        old(taken))
      ensures Gives(ok, event, want)
    {
      hide Delivered, Texts, StackFrames, StackOpeners, StackWeight, Gives, ThenRest, FlowItem, Meaning, FlowPair,
        Separated, Valid, OpenIn, Ahead, Inside, FramesOf, OpenersOf, WeightOf, Waiting, InCollection, OpenersIn,
        EmptyScalar, MakeEvent, Step;
      FlowSequenceRows();
      OnTop(state, states, |tokens| - pos);
      Entered();
      FlowEntryFirst(tokens, tagDirectives, pos, first, states);
      ok, event := false, EmptyScalar(NO_MARK);
      ghost var budget := MeasureOf(|tokens| - pos, state, states);
      ghost var frames, openers := StackFrames(states), StackOpeners(states);
      if first {
        PushMark();
      }
      if Peek() == None {
        SetError(SCANNER_ERROR);
        return;
      }
      ok := true;
      if !first {
        ok := FlowSeparator(FlowSequenceEndToken, openers, FlowSequenceStartToken);
      }
      if !ok {
        Failed(event, Doc(frames + [SeqFrame]), budget, old(taken));
        return;
      }
      ok, event := ParseFlowItem(budget, want);
    }

    /** A key inside a flow sequence starts a mapping of one pair. */
    method OpenPair(token: Token, ghost g: Grammar, ghost budget: int, ghost want: Result)
        returns (ok: bool, event: Event)
      requires Inside(OpenersIn(FlowSequenceEntryMappingKeyState, states))
      requires Step(g, MappingStart) == Doc(StackFrames(states) + [SeqFrame] + [MapFrame(true)])
      requires 6 * (|tokens| - pos) + 3 + StackWeight(states) < budget
      requires want == StartFirst(tokens, tagDirectives, pos,
        MakeEvent(MappingStart, token.start, token.end).(implicit := true, style := Flow),
        FlowSequenceEntryMappingKeyState, states)
      modifies `state
      ensures Delivered(ok, event, g, budget, old(taken))
      ensures Gives(ok, event, want)
    {
      hide Delivered, Step, Texts, StackFrames, StackOpeners, StackWeight, Inside, ThenRest, Meaning, Ahead,
        FramesOf, Waiting, OpenersIn, MeasureOf;
      PairRows();
      OnTop(FlowSequenceEntryMappingKeyState, states, |tokens| - pos);
      PairSteps(StackFrames(states));
      state := FlowSequenceEntryMappingKeyState;
      ok, event := true, MakeEvent(MappingStart, token.start, token.end).(implicit := true, style := Flow);
      InState(event, g, budget, old(taken));
    }

    method ParseFlowSequenceEntryMappingKey(ghost want: Result) returns (ok: bool, event: Event)
      requires Valid() && state == FlowSequenceEntryMappingKeyState
      requires want == Ahead()
      modifies this
      ensures Delivered(ok, event, old(OpenIn(state, states)), old(MeasureOf(|tokens| - pos, state, states)),
        old(taken))
      ensures Gives(ok, event, want)
    {
      hide Delivered, Texts, StackFrames, StackOpeners, StackWeight, Gives, NodeFirst, EmptyFirst, EndFirst,
        ThenRest, PairKey, Meaning, Valid, OpenIn, Ahead, Inside, FramesOf, OpenersOf, WeightOf, Waiting,
        InCollection, OpenersIn, EmptyScalar, MakeEvent, Step, Fill, WantsNode;
      PairKeyRows();
      OnTop(FlowSequenceEntryMappingValueState, states, |tokens| - pos);
      OnTop(state, states, |tokens| - pos);
      Entered();
      PairKeyFirst(tokens, tagDirectives, pos, states);
      ok, event := false, EmptyScalar(NO_MARK);
      ghost var budget := MeasureOf(|tokens| - pos, state, states);
      ghost var frames, openers := StackFrames(states), StackOpeners(states);
      PairSteps(frames);
      ghost var g := Doc(frames + [SeqFrame] + [MapFrame(true)]);
      var token := Peek();
      if token == None {
        SetError(SCANNER_ERROR);
        return;
      }
      if token.value.typ != ValueToken && token.value.typ != FlowEntryToken && token.value.typ != FlowSequenceEndToken {
        ok, event := NodeThen(FlowSequenceEntryMappingValueState, false, false, frames + [SeqFrame], MapFrame(true),
            budget, want);
      } else {
        Skip();
        ok, event := EmptyThen(FlowSequenceEntryMappingValueState, token.value.end, g, budget, want);
      }
    }

    method ParseFlowSequenceEntryMappingValue(ghost want: Result) returns (ok: bool, event: Event)
      requires Valid() && state == FlowSequenceEntryMappingValueState
      requires want == Ahead()
      modifies this
      ensures Delivered(ok, event, old(OpenIn(state, states)), old(MeasureOf(|tokens| - pos, state, states)),
        old(taken))
      ensures Gives(ok, event, want)
    {
      hide Delivered, Texts, StackFrames, StackOpeners, StackWeight, Gives, NodeFirst, EmptyFirst, EndFirst,
        ThenRest, PairValue, Meaning, Valid, OpenIn, Ahead, Inside, FramesOf, OpenersOf, WeightOf, Waiting,
        InCollection, OpenersIn, EmptyScalar, MakeEvent, Step, Fill, WantsNode;
      PairRows();
      OnTop(FlowSequenceEntryMappingEndState, states, |tokens| - pos);
      OnTop(state, states, |tokens| - pos);
      Entered();
      PairValueFirst(tokens, tagDirectives, pos, states);
      ok, event := false, EmptyScalar(NO_MARK);
      ghost var budget := MeasureOf(|tokens| - pos, state, states);
      ghost var frames, openers := StackFrames(states), StackOpeners(states);
      PairSteps(frames);
      ghost var g := Doc(frames + [SeqFrame] + [MapFrame(false)]);
      var token := Peek();
      if token == None {
        SetError(SCANNER_ERROR);
        return;
      }
      if token.value.typ == ValueToken {
        Skip();
        var next := Peek();
        if next == None {
          SetError(SCANNER_ERROR);
          return;
        }
        if next.value.typ != FlowEntryToken && next.value.typ != FlowSequenceEndToken {
          ok, event := NodeThen(FlowSequenceEntryMappingEndState, false, false, frames + [SeqFrame], MapFrame(false),
              budget, want);
          return;
        }
      }
      ok, event := EmptyThen(FlowSequenceEntryMappingEndState, token.value.start, g, budget, want);
    }

    method ParseFlowSequenceEntryMappingEnd(ghost want: Result) returns (ok: bool, event: Event)
      requires Valid() && state == FlowSequenceEntryMappingEndState
      requires want == Ahead()
      modifies this
      ensures Delivered(ok, event, old(OpenIn(state, states)), old(MeasureOf(|tokens| - pos, state, states)),
        old(taken))
      ensures Gives(ok, event, want)
    {
      hide Delivered, Texts, StackFrames, StackOpeners, StackWeight, Gives, StartFirst, Meaning, Valid, OpenIn,
        Ahead, Inside, FramesOf, OpenersOf, WeightOf, InCollection, OpenersIn, MakeEvent, Step;
      PairRows();
      OnTop(state, states, |tokens| - pos);
      Entered();
      PairEndFirst(tokens, tagDirectives, pos, states);
      ok, event := false, EmptyScalar(NO_MARK);
      ghost var budget, frames := MeasureOf(|tokens| - pos, state, states), StackFrames(states);
      PairSteps(frames);
      var token := Peek();
      if token == None {
        SetError(SCANNER_ERROR);
        return;
      }
      OnTop(FlowSequenceEntryState, states, |tokens| - pos);
      ok, event := ClosePair(token.value, budget, want);
    }

    /** The end of a mapping of one pair. */
    method ClosePair(token: Token, ghost budget: int, ghost want: Result) returns (ok: bool, event: Event)
      requires Inside(OpenersIn(FlowSequenceEntryState, states))
      requires 6 * (|tokens| - pos) + StackWeight(states) < budget
      requires want == StartFirst(tokens, tagDirectives, pos, MakeEvent(MappingEnd, token.start, token.start),
        FlowSequenceEntryState, states)
      modifies `state
      ensures Delivered(ok, event, Doc(StackFrames(states) + [SeqFrame] + [MapFrame(true)]), budget, old(taken))
      ensures Gives(ok, event, want)
    {
      hide Delivered, Step, Texts, StackFrames, StackOpeners, StackWeight, Inside, ThenRest, Meaning, Ahead,
        FramesOf, Waiting, OpenersIn, MeasureOf;
      PairRows();
      OnTop(FlowSequenceEntryState, states, |tokens| - pos);
      PairSteps(StackFrames(states));
      state := FlowSequenceEntryState;
      ok, event := true, MakeEvent(MappingEnd, token.start, token.start);
      InState(event, Doc(StackFrames(states) + [SeqFrame] + [MapFrame(true)]), budget, old(taken));
    }

    /** The next key of a flow mapping, or its end. */
    method ParseFlowPair(ghost budget: int, ghost want: Result) returns (ok: bool, event: Event)
      requires Inside(StackOpeners(states) + [FlowMappingStartToken]) && pos < |tokens|
      requires 6 * (|tokens| - pos) + StackWeight(states)
        + (if tokens[pos].typ == FlowMappingEndToken then 0 else 6) <= budget
      requires want == ThenRest(tokens, tagDirectives, FlowPair(tokens, tagDirectives, pos), states)
      modifies this
      ensures Delivered(ok, event, Doc(StackFrames(old(states)) + [MapFrame(true)]), budget, old(taken))
      ensures Gives(ok, event, want)
    {
      hide Delivered, Texts, StackFrames, StackOpeners, StackWeight, Gives, NodeFirst, EmptyFirst, EndFirst,
        ThenRest, FlowPair, Inside, FramesOf, OpenersOf, WeightOf, Waiting, InCollection, OpenersIn, EmptyScalar,
        MakeEvent, Step;
      FlowMappingRows();
      OnTop(FlowMappingEmptyValueState, states, |tokens| - pos);
      OnTop(FlowMappingValueState, states, |tokens| - pos);
      InsideTaken(StackOpeners(states) + [FlowMappingStartToken]);
      FlowPairFirst(tokens, tagDirectives, pos, states);
      ghost var frames, openers := StackFrames(states), StackOpeners(states);
      StepsIn(frames, MapFrame(true));
      var token := tokens[pos];
      if token.typ == KeyToken {
        Skip();
        ok, event := ParseFlowKey(budget, want);
      } else if token.typ != FlowMappingEndToken {
        ok, event := NodeThen(FlowMappingEmptyValueState, false, false, frames, MapFrame(true), budget, want);
      } else {
        PopMark(openers, FlowMappingStartToken);
        Skip();
        ok, event := Leave(MappingEnd, token.start, token.end, Doc(frames + [MapFrame(true)]), budget, want);
      }
    }

    method ParseFlowMappingKey(first: bool, ghost want: Result) returns (ok: bool, event: Event)
      requires Valid() && state == (if first then FlowMappingFirstKeyState else FlowMappingKeyState)
      requires want == Ahead()
      modifies this
      ensures Delivered(ok, event, old(OpenIn(state, states)), old(MeasureOf(|tokens| - pos, state, states)),
        old(taken))
      ensures Gives(ok, event, want)
    {
      hide Delivered, Texts, StackFrames, StackOpeners, StackWeight, Gives, ThenRest, FlowPair, Meaning, FlowItem,
        Separated, Valid, OpenIn, Ahead, Inside, FramesOf, OpenersOf, WeightOf, Waiting, InCollection, OpenersIn,
        EmptyScalar, MakeEvent, Step;
      FlowMappingRows();
      OnTop(state, states, |tokens| - pos);
      Entered();
      FlowKeyFirst(tokens, tagDirectives, pos, first, states);
      ok, event := false, EmptyScalar(NO_MARK);
      ghost var budget := MeasureOf(|tokens| - pos, state, states);
      ghost var frames, openers := StackFrames(states), StackOpeners(states);
      if first {
        PushMark();
      }
      if Peek() == None {
        SetError(SCANNER_ERROR);
        return;
      }
      ok := true;
      if !first {
        ok := FlowSeparator(FlowMappingEndToken, openers, FlowMappingStartToken);
      }
      if !ok {
        Failed(event, Doc(frames + [MapFrame(true)]), budget, old(taken));
        return;
      }
      ok, event := ParseFlowPair(budget, want);
    }

    /** The node after the key indicator of a flow mapping. */
    method ParseFlowKey(ghost budget: int, ghost want: Result) returns (ok: bool, event: Event)
      requires Inside(OpenersIn(FlowMappingValueState, states))
      requires MeasureOf(|tokens| - pos, FlowMappingValueState, states) < budget
      requires want == KeyFirst(tokens, tagDirectives, pos, states)
      modifies this
      ensures Delivered(ok, event, Doc(StackFrames(old(states)) + [MapFrame(true)]), budget, old(taken))
      ensures Gives(ok, event, want)
    {
      hide Delivered, Texts, ReadyDirectives, ValidMarks, StackFrames, StackOpeners, StackWeight, Gives, NodeFirst,
        EmptyFirst, FramesOf, OpenersOf, WeightOf, Waiting, InCollection, OpenersIn, EmptyScalar, MakeEvent, Step;
      FlowMappingRows();
      OnTop(FlowMappingValueState, states, |tokens| - pos);
      ghost var frames := StackFrames(states);
      StepsIn(frames, MapFrame(true));
      var token := Peek();
      if token == None {
        ok, event := false, EmptyScalar(NO_MARK);
        SetError(SCANNER_ERROR);
      } else if token.value.typ != ValueToken && token.value.typ != FlowEntryToken &&
          token.value.typ != FlowMappingEndToken {
        ok, event := NodeThen(FlowMappingValueState, false, false, frames, MapFrame(true), budget, want);
      } else {
        ok, event := EmptyThen(FlowMappingValueState, token.value.start, Doc(frames + [MapFrame(true)]), budget, want);
      }
    }

    method ParseFlowMappingValue(empty: bool, ghost want: Result) returns (ok: bool, event: Event)
      requires Valid() && state == (if empty then FlowMappingEmptyValueState else FlowMappingValueState)
      requires want == Ahead()
      modifies this
      ensures Delivered(ok, event, old(OpenIn(state, states)), old(MeasureOf(|tokens| - pos, state, states)),
        old(taken))
      ensures Gives(ok, event, want)
    {
      hide Delivered, Texts, StackFrames, StackOpeners, StackWeight, Gives, NodeFirst, EmptyFirst, EndFirst,
        ThenRest, FlowValue, Meaning, Valid, OpenIn, Ahead, Inside, FramesOf, OpenersOf, WeightOf, Waiting,
        InCollection, OpenersIn, EmptyScalar, MakeEvent, Step;
      FlowMappingRows();
      OnTop(FlowMappingKeyState, states, |tokens| - pos);
      OnTop(state, states, |tokens| - pos);
      Entered();
      FlowValueFirst(tokens, tagDirectives, pos, empty, states);
      ok, event := false, EmptyScalar(NO_MARK);
      ghost var budget := MeasureOf(|tokens| - pos, state, states);
      ghost var frames, openers := StackFrames(states), StackOpeners(states);
      StepsIn(frames, MapFrame(false));
      assert [MapFrame(true)] == [Fill(MapFrame(false))];
      var token := Peek();
      if token == None {
        SetError(SCANNER_ERROR);
        return;
      }
      if !empty && token.value.typ == ValueToken {
        Skip();
        token := Peek();
        if token == None {
          SetError(SCANNER_ERROR);
          return;
        }
        if token.value.typ != FlowEntryToken && token.value.typ != FlowMappingEndToken {
          ok, event := NodeThen(FlowMappingKeyState, false, false, frames, MapFrame(false), budget, want);
          return;
        }
      }
      ok, event := EmptyThen(FlowMappingKeyState, token.value.start, Doc(frames + [MapFrame(false)]), budget, want);
    }

    // ----- The dispatcher --------------------------------------------------------------

    method StateMachine(ghost want: Result) returns (ok: bool, event: Event)
      requires Valid() && state != EndState
      requires want == Ahead()
      modifies this
      ensures Delivered(ok, event, old(OpenIn(state, states)), old(MeasureOf(|tokens| - pos, state, states)),
        old(taken))
      ensures Gives(ok, event, want)
    {
      hide Texts, Delivered, ReadyDirectives, ValidMarks, StackOpeners, StackWeight;
      assert [] + [DocFrame(true)] == [DocFrame(true)];
      match state
      case StreamStartState => ok, event := ParseStreamStart(want);
      case ImplicitDocumentStartState => ok, event := ParseDocumentStart(true, want);
      case DocumentStartState => ok, event := ParseDocumentStart(false, want);
      case DocumentContentState => ok, event := ParseDocumentContent(want);
      case DocumentEndState => ok, event := ParseDocumentEnd(want);
      case BlockNodeState => ok, event := ParseBlockNode(want);
      case BlockSequenceFirstEntryState => ok, event := ParseBlockSequenceEntry(true, want);
      case BlockSequenceEntryState => ok, event := ParseBlockSequenceEntry(false, want);
      case IndentlessSequenceEntryState => ok, event := ParseIndentlessSequenceEntry(want);
      case BlockMappingFirstKeyState => ok, event := ParseBlockMappingKey(true, want);
      case BlockMappingKeyState => ok, event := ParseBlockMappingKey(false, want);
      case BlockMappingValueState => ok, event := ParseBlockMappingValue(want);
      case FlowSequenceFirstEntryState => ok, event := ParseFlowSequenceEntry(true, want);
      case FlowSequenceEntryState => ok, event := ParseFlowSequenceEntry(false, want);
      case FlowSequenceEntryMappingKeyState => ok, event := ParseFlowSequenceEntryMappingKey(want);
      case FlowSequenceEntryMappingValueState => ok, event := ParseFlowSequenceEntryMappingValue(want);
      case FlowSequenceEntryMappingEndState => ok, event := ParseFlowSequenceEntryMappingEnd(want);
      case FlowMappingFirstKeyState => ok, event := ParseFlowMappingKey(true, want);
      case FlowMappingKeyState => ok, event := ParseFlowMappingKey(false, want);
      case FlowMappingValueState => ok, event := ParseFlowMappingValue(false, want);
      case FlowMappingEmptyValueState => ok, event := ParseFlowMappingValue(true, want);
    }

    /** The next event; none after the end of the stream or after an error. */
    method Parse() returns (ok: bool, event: Option<Event>)
      requires error != None || Valid()
      modifies this
      ensures old(error) != None || old(state) == EndState ==> ok && event == None && unchanged(this)
      ensures old(error) == None && old(state) != EndState && ok ==>
                event != None && Delivered(true, event.value, old(OpenIn(state, states)),
                    old(MeasureOf(|tokens| - pos, state, states)), old(taken))
      ensures old(error) == None && old(state) != EndState ==>
                old(Ahead()) == if ok then Emit(event.value, Ahead()) else FAIL
      ensures !ok ==> error != None
    {
      hide Texts, ReadyDirectives, ValidMarks, StackFrames, StackOpeners, StackWeight, OpenIn, WeightOf;
      if streamEndProduced || error != None || state == EndState {
        return true, None;
      }
      var e;
      ok, e := StateMachine(Ahead());
      event := if ok then Some(e) else None;
    }

    /** Every event of the stream, up to STREAM-END or the first error. */
    method ParseAll() returns (events: seq<Event>)
      requires Valid() && state == StreamStartState && pos == 0
      modifies this
      ensures Run(Start, Kinds(events)) != Reject
      ensures |events| <= 6 * |tokens|
      ensures error == None ==> pos <= |tokens| && EventTexts(events) == Texts(tokens[..pos])
      ensures error == None <==> Run(Start, Kinds(events)) == End
      ensures error == None ==> states == [] && marks == [] && tagDirectives == []
      ensures StreamAt(tokens, 0) == Result(events, if error == None then Some(pos) else None)
      ensures YamlWindows.Reading(tokens, events, if error == None then Some(pos) else None)
      ensures forall e :: e in events ==> YamlWindows.Untagged(e)
    {
      hide Texts, EventTexts, Run, Step, OpenIn, Kinds, ReadyDirectives, ValidMarks, ValidControl, WeightOf,
        StackWeight, Remaining, StreamAt, YamlWindows.Reading, YamlWindows.Untagged;
      events := [];
      assert tokens[..0] == [];
      AtStart();
      while error == None && state != EndState
        invariant error == None ==>
                    && Valid() && Run(Start, Kinds(events)) == OpenIn(state, states)
                    && |events| + MeasureOf(|tokens| - pos, state, states) <= 6 * |tokens|
        invariant error != None ==> Run(Start, Kinds(events)) != Reject && Run(Start, Kinds(events)) != End
        invariant |events| <= 6 * |tokens|
        invariant error == None ==> EventTexts(events) == taken
        invariant StreamAt(tokens, 0) == if error == None then Prepend(events, Ahead()) else Result(events, None)
        decreases error == None, MeasureOf(|tokens| - pos, state, states)
      {
        NotFinished(state, states);
        var ok, event := Parse();
        if ok {
          AppendEvent(events, event.value);
          PrependPrepend(events, [event.value], Ahead());
          events := events + [event.value];
        }
      }
      if error == None {
        Finished();
        PrependNothing(events, pos);
      }
      YamlReading.StreamReads(tokens, events, if error == None then Some(pos) else None);
    }

    lemma AtStart()
      requires Valid() && state == StreamStartState && pos == 0
      ensures MeasureOf(|tokens| - pos, state, states) == 6 * |tokens|
      ensures OpenIn(state, states) == Run(Start, Kinds([])) && taken == EventTexts([])
      ensures StreamAt(tokens, 0) == Prepend([], Ahead())
    {
      assert tokens[..0] == [];
    }

    lemma Finished()
      requires Valid() && state == EndState
      ensures OpenIn(state, states) == End && states == [] && marks == [] && tagDirectives == []
      ensures Ahead() == Result([], Some(pos))
    {
      hide Texts, ValidFirst, ReadyDirectives;
    }
  }

  lemma PrependNothing(events: seq<Event>, pos: nat)
    ensures Prepend(events, Result([], Some(pos))) == Result(events, Some(pos))
  {
  }

  lemma NotFinished(s: State, states: seq<State>)
    requires s != EndState
    ensures OpenIn(s, states) != Reject && OpenIn(s, states) != End
  {
  }

  lemma AppendEvent(events: seq<Event>, event: Event)
    ensures Run(Start, Kinds(events + [event])) == Step(Run(Start, Kinds(events)), event.kind)
    ensures EventTexts(events + [event]) == AddText(EventTexts(events), TextOfEvent(event))
  {
    RunConcat(Start, Kinds(events), [event.kind]);
    assert Kinds(events + [event]) == Kinds(events) + [event.kind];
    assert (events + [event])[..|events|] == events;
    assert Run(Run(Start, Kinds(events)), [event.kind]) == Step(Run(Start, Kinds(events)), event.kind);
  }
}
