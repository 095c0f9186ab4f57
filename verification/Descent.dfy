/** What a token sequence means: a recursive descent over the grammar at the head of parserc.go.
  *
  * Every production is a function from a position to the events it stands for and the position
  * after it. `Rest` says what the stack of states of the pushdown parser stands for: the
  * productions that are still to be completed. */
module YamlDescent {
  import opened Options
  import opened YamlEvents
  import opened YamlTokens

  datatype State =
    | StreamStartState | ImplicitDocumentStartState | DocumentStartState
    | DocumentContentState | DocumentEndState
    | BlockNodeState | BlockNodeOrIndentlessSequenceState | FlowNodeState
    | BlockSequenceFirstEntryState | BlockSequenceEntryState | IndentlessSequenceEntryState
    | BlockMappingFirstKeyState | BlockMappingKeyState | BlockMappingValueState
    | FlowSequenceFirstEntryState | FlowSequenceEntryState
    | FlowSequenceEntryMappingKeyState | FlowSequenceEntryMappingValueState | FlowSequenceEntryMappingEndState
    | FlowMappingFirstKeyState | FlowMappingKeyState | FlowMappingValueState | FlowMappingEmptyValueState
    | EndState

  // ----- Events ------------------------------------------------------------------------

  const NO_MARK := Mark(0, 0, 0)

  function MakeEvent(kind: EventKind, start: Mark, end: Mark): Event {
    Event(kind, start, end, None, "", "", false, false, AnyStyle, None, [])
  }

  function EmptyScalar(mark: Mark): Event {
    MakeEvent(Scalar, mark, mark).(implicit := true, style := Plain)
  }

  /** The event of a scalar token whose properties are in `event`. */
  function ScalarEvent(event: Event, token: Token): (e: Event)
    ensures e.kind == Scalar && e.value == token.value
    ensures e.anchor == event.anchor && e.tag == event.tag
    ensures !(e.implicit && e.quotedImplicit)
    ensures e.implicit || e.quotedImplicit || e.tag != ""
  {
    event.(kind := Scalar, value := token.value, style := token.style,
           implicit := (event.tag == "" && token.style == Plain) || event.tag == "!",
           quotedImplicit := event.tag == "" && token.style != Plain)
  }

  // ----- Directives --------------------------------------------------------------------

  predicate IsDirective(t: Token) {
    t.typ == VersionDirectiveToken || t.typ == TagDirectiveToken
  }

  datatype Directives = Directives(version: Option<(int, int)>, tags: seq<TagDirective>, next: nat)

  /** The directives before a document; a repeated one, or a version other than 1.1, is an error. */
  function DirectivesAt(ts: seq<Token>, pos: nat, version: Option<(int, int)>,
      tags: seq<TagDirective>): (r: Option<Directives>)
    ensures r.Some? ==> pos <= r.value.next < |ts| && !IsDirective(ts[r.value.next])
    decreases |ts| - pos
  {
    if pos >= |ts| then None
    else if ts[pos].typ == VersionDirectiveToken then
      if version == None && ts[pos].major == 1 && ts[pos].minor == 1 then DirectivesAt(ts, pos + 1, Some((1, 1)), tags)
      else None
    else if ts[pos].typ == TagDirectiveToken then
      if HasHandle(tags, ts[pos].value) then None
      else DirectivesAt(ts, pos + 1, version, tags + [TagDirective(ts[pos].value, ts[pos].prefix)])
    else Some(Directives(version, tags, pos))
  }

  lemma NoDirectives(ts: seq<Token>, pos: nat)
    requires pos < |ts| && !IsDirective(ts[pos])
    ensures DirectivesAt(ts, pos, None, []) == Some(Directives(None, [], pos))
  {
  }

  function AddDefault(ds: seq<TagDirective>, d: TagDirective): seq<TagDirective> {
    if HasHandle(ds, d.handle) then ds else ds + [d]
  }

  function WithDefaults(ds: seq<TagDirective>): seq<TagDirective> {
    AddDefault(AddDefault(ds, DEFAULT_DIRECTIVES[0]), DEFAULT_DIRECTIVES[1])
  }

  // ----- Node properties ---------------------------------------------------------------

  /** The position after the anchor and the tag before a node, in either order. */
  function PropertiesEnd(ts: seq<Token>, pos: nat): (n: nat)
    requires pos < |ts|
    ensures pos <= n <= |ts|
  {
    if ts[pos].typ == AnchorToken then
      if pos + 1 < |ts| && ts[pos + 1].typ == TagToken then pos + 2 else pos + 1
    else if ts[pos].typ == TagToken then
      if pos + 1 < |ts| && ts[pos + 1].typ == AnchorToken then pos + 2 else pos + 1
    else pos
  }

  function AnchorIn(ts: seq<Token>): Option<string> {
    if ts == [] then None
    else if ts[0].typ == AnchorToken then Some(ts[0].value)
    else AnchorIn(ts[1..])
  }

  function TagIn(ts: seq<Token>): Option<Token> {
    if ts == [] then None
    else if ts[0].typ == TagToken then Some(ts[0])
    else TagIn(ts[1..])
  }

  lemma PropertiesAre(tokens: seq<Token>, from: nat, n: nat)
    requires from <= n <= |tokens| && n <= from + 2
    ensures var ts := tokens[from..n];
      && (n == from ==> AnchorIn(ts) == None && TagIn(ts) == None)
      && (n == from + 1 && ts[0].typ == AnchorToken ==> AnchorIn(ts) == Some(ts[0].value) && TagIn(ts) == None)
      && (n == from + 1 && ts[0].typ == TagToken ==> AnchorIn(ts) == None && TagIn(ts) == Some(ts[0]))
      && (n == from + 2 && ts[0].typ == AnchorToken && ts[1].typ == TagToken ==>
            AnchorIn(ts) == Some(ts[0].value) && TagIn(ts) == Some(ts[1]))
      && (n == from + 2 && ts[0].typ == TagToken && ts[1].typ == AnchorToken ==>
            AnchorIn(ts) == Some(ts[1].value) && TagIn(ts) == Some(ts[0]))
  {
    var ts := tokens[from..n];
    if n == from + 2 {
      assert ts[1..] == [ts[1]] && ts[1..][1..] == [];
    }
  }

  /** The prefix that the first directive for `handle` gives. */
  function PrefixOf(ds: seq<TagDirective>, handle: string): Option<string> {
    if ds == [] then None
    else if ds[0].handle == handle then Some(ds[0].prefix)
    else PrefixOf(ds[1..], handle)
  }

  /** The tag a tag token stands for; an unknown handle is an error. */
  function Resolved(token: Option<Token>, ds: seq<TagDirective>): Option<string> {
    match token
    case None => Some("")
    case Some(t) =>
      if t.value == "" then Some(t.suffix)
      else
        var prefix := PrefixOf(ds, t.value);
        if prefix == None || prefix.value + t.suffix == "" then None else Some(prefix.value + t.suffix)
  }

  // ----- Results -----------------------------------------------------------------------

  /** The events up to the end of a production, or up to an error. */
  datatype Result = Result(events: seq<Event>, next: Option<nat>)

  const FAIL := Result([], None)

  function Single(event: Event, next: nat): Result {
    Result([event], Some(next))
  }

  function Emit(event: Event, r: Result): Result {
    Result([event] + r.events, r.next)
  }

  function Prepend(events: seq<Event>, r: Result): Result {
    Result(events + r.events, r.next)
  }

  predicate From(r: Result, pos: nat, ts: seq<Token>) {
    r.next.Some? ==> pos <= r.next.value <= |ts|
  }

  // ----- Nodes -------------------------------------------------------------------------

  function Node(ts: seq<Token>, ds: seq<TagDirective>, pos: nat, block: bool, indentless: bool): (r: Result)
    ensures From(r, pos + 1, ts)
    decreases |ts| - pos, 3
  {
    if pos >= |ts| then FAIL
    else if ts[pos].typ == AliasToken then
      Single(MakeEvent(Alias, ts[pos].start, ts[pos].end).(anchor := Some(ts[pos].value)), pos + 1)
    else
      var n := PropertiesEnd(ts, pos);
      var tag := Resolved(TagIn(ts[pos..n]), ds);
      if n >= |ts| || tag == None then FAIL
      else
        Content(ts, ds, n, block, indentless, AnchorIn(ts[pos..n]), tag.value, ts[pos].start,
                if n == pos then ts[pos].start else ts[n - 1].end)
  }

  /** The content at `n` of a node whose properties have been taken. */
  function Content(ts: seq<Token>, ds: seq<TagDirective>, n: nat, block: bool, indentless: bool, anchor: Option<string>,
      tag: string, start: Mark, end: Mark): (r: Result)
    requires n < |ts|
    ensures From(r, if anchor == None && tag == "" then n + 1 else n, ts)
    decreases |ts| - n, 2
  {
    var t := ts[n];
    var e := MakeEvent(SequenceStart, start, t.end).(anchor := anchor, tag := tag, implicit := tag == "");
    if indentless && t.typ == BlockEntryToken then
      Emit(e.(style := Block), Indentless(ts, ds, n))
    else if t.typ == ScalarToken then
      Single(ScalarEvent(e, t), n + 1)
    else if t.typ == FlowSequenceStartToken then
      Emit(e.(style := Flow), FlowSequence(ts, ds, n))
    else if t.typ == FlowMappingStartToken then
      Emit(e.(kind := MappingStart, style := Flow), FlowMapping(ts, ds, n))
    else if block && t.typ == BlockSequenceStartToken then
      Emit(e.(style := Block), BlockItems(ts, ds, n + 1))
    else if block && t.typ == BlockMappingStartToken then
      Emit(e.(kind := MappingStart, style := Block), BlockKeys(ts, ds, n + 1))
    else if (anchor != None && anchor.value != "") || tag != "" then
      Single(e.(kind := Scalar, end := end, style := Plain), n)
    else FAIL
  }

  /** After a node, the production around it goes on in state `s`. */
  function Then(ts: seq<Token>, ds: seq<TagDirective>, node: Result, s: State): (r: Result)
    requires From(node, 0, ts)
    ensures r.next.Some? ==> node.next.Some? && From(r, node.next.value, ts)
    decreases if node.next == None then 0 else |ts| - node.next.value, 11
  {
    if node.next == None then node else Prepend(node.events, Meaning(ts, ds, s, node.next.value))
  }

  /** What is still to come of a production inside a document in state `s`. */
  function Meaning(ts: seq<Token>, ds: seq<TagDirective>, s: State, pos: nat): (r: Result)
    ensures From(r, pos, ts)
    decreases |ts| - pos, 10
  {
    if pos > |ts| then FAIL else
    match s
    case BlockSequenceFirstEntryState => BlockItems(ts, ds, pos + 1)
    case BlockSequenceEntryState => BlockItems(ts, ds, pos)
    case IndentlessSequenceEntryState => Indentless(ts, ds, pos)
    case BlockMappingFirstKeyState => BlockKeys(ts, ds, pos + 1)
    case BlockMappingKeyState => BlockKeys(ts, ds, pos)
    case BlockMappingValueState => BlockValue(ts, ds, pos)
    case FlowSequenceFirstEntryState => FlowSequence(ts, ds, pos)
    case FlowSequenceEntryState => FlowItems(ts, ds, pos)
    case FlowSequenceEntryMappingKeyState => PairKey(ts, ds, pos)
    case FlowSequenceEntryMappingValueState => PairValue(ts, ds, pos)
    case FlowSequenceEntryMappingEndState => PairEnd(ts, ds, pos)
    case FlowMappingFirstKeyState => FlowMapping(ts, ds, pos)
    case FlowMappingKeyState => FlowKeys(ts, ds, pos)
    case FlowMappingValueState => FlowValue(ts, ds, pos, false)
    case FlowMappingEmptyValueState => FlowValue(ts, ds, pos, true)
    case _ => FAIL
  }

  // ----- Block collections -------------------------------------------------------------

  /** block_sequence: (BLOCK-ENTRY block_node?)* BLOCK-END */
  function BlockItems(ts: seq<Token>, ds: seq<TagDirective>, pos: nat): (r: Result)
    ensures From(r, pos + 1, ts)
    decreases |ts| - pos, 4
  {
    if pos >= |ts| then FAIL
    else if ts[pos].typ == BlockEntryToken then
      if pos + 1 >= |ts| then FAIL
      else if ts[pos + 1].typ != BlockEntryToken && ts[pos + 1].typ != BlockEndToken then
        Then(ts, ds, Node(ts, ds, pos + 1, true, false), BlockSequenceEntryState)
      else Emit(EmptyScalar(ts[pos].end), BlockItems(ts, ds, pos + 1))
    else if ts[pos].typ == BlockEndToken then
      Single(MakeEvent(SequenceEnd, ts[pos].start, ts[pos].end), pos + 1)
    else FAIL
  }

  /** indentless_sequence: (BLOCK-ENTRY block_node?)+ */
  function Indentless(ts: seq<Token>, ds: seq<TagDirective>, pos: nat): (r: Result)
    ensures From(r, if pos < |ts| && ts[pos].typ == BlockEntryToken then pos + 1 else pos, ts)
    decreases |ts| - pos, 1
  {
    if pos >= |ts| then FAIL
    else if ts[pos].typ == BlockEntryToken then
      if pos + 1 >= |ts| then FAIL
      else if ts[pos + 1].typ != BlockEntryToken && ts[pos + 1].typ != KeyToken
              && ts[pos + 1].typ != ValueToken && ts[pos + 1].typ != BlockEndToken then
        Then(ts, ds, Node(ts, ds, pos + 1, true, false), IndentlessSequenceEntryState)
      else Emit(EmptyScalar(ts[pos].end), Indentless(ts, ds, pos + 1))
    else Single(MakeEvent(SequenceEnd, ts[pos].start, ts[pos].start), pos)
  }

  /** block_mapping: (KEY node? (VALUE node?)?)* BLOCK-END */
  function BlockKeys(ts: seq<Token>, ds: seq<TagDirective>, pos: nat): (r: Result)
    ensures From(r, pos + 1, ts)
    decreases |ts| - pos, 4
  {
    if pos >= |ts| then FAIL
    else if ts[pos].typ == KeyToken then
      if pos + 1 >= |ts| then FAIL
      else if ts[pos + 1].typ != KeyToken && ts[pos + 1].typ != ValueToken && ts[pos + 1].typ != BlockEndToken then
        Then(ts, ds, Node(ts, ds, pos + 1, true, true), BlockMappingValueState)
      else Emit(EmptyScalar(ts[pos].end), BlockValue(ts, ds, pos + 1))
    else if ts[pos].typ == BlockEndToken then
      Single(MakeEvent(MappingEnd, ts[pos].start, ts[pos].end), pos + 1)
    else FAIL
  }

  function BlockValue(ts: seq<Token>, ds: seq<TagDirective>, pos: nat): (r: Result)
    ensures From(r, pos + 1, ts)
    decreases |ts| - pos, 5
  {
    if pos >= |ts| then FAIL
    else if ts[pos].typ == ValueToken then
      if pos + 1 >= |ts| then FAIL
      else if ts[pos + 1].typ != KeyToken && ts[pos + 1].typ != ValueToken && ts[pos + 1].typ != BlockEndToken then
        Then(ts, ds, Node(ts, ds, pos + 1, true, true), BlockMappingKeyState)
      else Emit(EmptyScalar(ts[pos].end), BlockKeys(ts, ds, pos + 1))
    else Emit(EmptyScalar(ts[pos].start), BlockKeys(ts, ds, pos))
  }

  // ----- Flow collections --------------------------------------------------------------

  /** The position after the ',' between two entries; there is none before the end `last`. */
  function Separated(ts: seq<Token>, pos: nat, last: TokenType): (next: Option<nat>)
    ensures next.Some? ==> pos <= next.value < |ts| && (next.value > pos || ts[pos].typ == last)
  {
    if pos >= |ts| then None
    else if ts[pos].typ == last then Some(pos)
    else if ts[pos].typ == FlowEntryToken && pos + 1 < |ts| then Some(pos + 1)
    else None
  }

  lemma SeparatedAt(ts: seq<Token>, pos: nat, last: TokenType)
    requires pos < |ts|
    ensures ts[pos].typ == last ==> Separated(ts, pos, last) == Some(pos)
    ensures ts[pos].typ != last && ts[pos].typ != FlowEntryToken ==> Separated(ts, pos, last) == None
    ensures ts[pos].typ != last && ts[pos].typ == FlowEntryToken ==>
              Separated(ts, pos, last) == if pos + 1 < |ts| then Some(pos + 1) else None
  {
  }

  /** flow_sequence: FLOW-SEQUENCE-START (entry FLOW-ENTRY)* entry? FLOW-SEQUENCE-END */
  function FlowSequence(ts: seq<Token>, ds: seq<TagDirective>, pos: nat): (r: Result)
    ensures From(r, pos + 1, ts)
    decreases |ts| - pos, 1
  {
    if pos + 1 >= |ts| then FAIL else FlowItem(ts, ds, pos + 1)
  }

  function FlowItems(ts: seq<Token>, ds: seq<TagDirective>, pos: nat): (r: Result)
    ensures From(r, pos + 1, ts)
    decreases |ts| - pos, 6
  {
    var next := Separated(ts, pos, FlowSequenceEndToken);
    if next == None then FAIL else FlowItem(ts, ds, next.value)
  }

  /** flow_sequence_entry: flow_node | KEY flow_node? (VALUE flow_node?)? */
  function FlowItem(ts: seq<Token>, ds: seq<TagDirective>, pos: nat): (r: Result)
    requires pos < |ts|
    ensures From(r, pos + 1, ts)
    decreases |ts| - pos, 5
  {
    var t := ts[pos];
    if t.typ == KeyToken then
      Emit(MakeEvent(MappingStart, t.start, t.end).(implicit := true, style := Flow), PairKey(ts, ds, pos + 1))
    else if t.typ != FlowSequenceEndToken then
      Then(ts, ds, Node(ts, ds, pos, false, false), FlowSequenceEntryState)
    else Single(MakeEvent(SequenceEnd, t.start, t.end), pos + 1)
  }

  /** The key of a single pair; when it is absent, the token after it is lost. */
  function PairKey(ts: seq<Token>, ds: seq<TagDirective>, pos: nat): (r: Result)
    ensures From(r, pos + 1, ts)
    decreases |ts| - pos, 9
  {
    if pos >= |ts| then FAIL
    else if ts[pos].typ != ValueToken && ts[pos].typ != FlowEntryToken && ts[pos].typ != FlowSequenceEndToken then
      Then(ts, ds, Node(ts, ds, pos, false, false), FlowSequenceEntryMappingValueState)
    else Emit(EmptyScalar(ts[pos].end), PairValue(ts, ds, pos + 1))
  }

  function PairValue(ts: seq<Token>, ds: seq<TagDirective>, pos: nat): (r: Result)
    ensures From(r, pos + 1, ts)
    decreases |ts| - pos, 8
  {
    if pos >= |ts| then FAIL
    else if ts[pos].typ == ValueToken then
      if pos + 1 >= |ts| then FAIL
      else if ts[pos + 1].typ != FlowEntryToken && ts[pos + 1].typ != FlowSequenceEndToken then
        Then(ts, ds, Node(ts, ds, pos + 1, false, false), FlowSequenceEntryMappingEndState)
      else Emit(EmptyScalar(ts[pos].start), PairEnd(ts, ds, pos + 1))
    else Emit(EmptyScalar(ts[pos].start), PairEnd(ts, ds, pos))
  }

  function PairEnd(ts: seq<Token>, ds: seq<TagDirective>, pos: nat): (r: Result)
    ensures From(r, pos + 1, ts)
    decreases |ts| - pos, 7
  {
    if pos >= |ts| then FAIL
    else Emit(MakeEvent(MappingEnd, ts[pos].start, ts[pos].start), FlowItems(ts, ds, pos))
  }

  /** flow_mapping: FLOW-MAPPING-START (entry FLOW-ENTRY)* entry? FLOW-MAPPING-END */
  function FlowMapping(ts: seq<Token>, ds: seq<TagDirective>, pos: nat): (r: Result)
    ensures From(r, pos + 1, ts)
    decreases |ts| - pos, 1
  {
    if pos + 1 >= |ts| then FAIL else FlowPair(ts, ds, pos + 1)
  }

  function FlowKeys(ts: seq<Token>, ds: seq<TagDirective>, pos: nat): (r: Result)
    ensures From(r, pos + 1, ts)
    decreases |ts| - pos, 6
  {
    var next := Separated(ts, pos, FlowMappingEndToken);
    if next == None then FAIL else FlowPair(ts, ds, next.value)
  }

  /** flow_mapping_entry: flow_node | KEY flow_node? (VALUE flow_node?)? */
  function FlowPair(ts: seq<Token>, ds: seq<TagDirective>, pos: nat): (r: Result)
    requires pos < |ts|
    ensures From(r, pos + 1, ts)
    decreases |ts| - pos, 5
  {
    var t := ts[pos];
    if t.typ == KeyToken then
      if pos + 1 >= |ts| then FAIL
      else if ts[pos + 1].typ != ValueToken && ts[pos + 1].typ != FlowEntryToken &&
          ts[pos + 1].typ != FlowMappingEndToken then
        Then(ts, ds, Node(ts, ds, pos + 1, false, false), FlowMappingValueState)
      else Emit(EmptyScalar(ts[pos + 1].start), FlowValue(ts, ds, pos + 1, false))
    else if t.typ != FlowMappingEndToken then
      Then(ts, ds, Node(ts, ds, pos, false, false), FlowMappingEmptyValueState)
    else Single(MakeEvent(MappingEnd, t.start, t.end), pos + 1)
  }

  function FlowValue(ts: seq<Token>, ds: seq<TagDirective>, pos: nat, empty: bool): (r: Result)
    ensures From(r, pos + 1, ts)
    decreases |ts| - pos, 7
  {
    if pos >= |ts| then FAIL
    else if !empty && ts[pos].typ == ValueToken then
      if pos + 1 >= |ts| then FAIL
      else if ts[pos + 1].typ != FlowEntryToken && ts[pos + 1].typ != FlowMappingEndToken then
        Then(ts, ds, Node(ts, ds, pos + 1, false, false), FlowMappingKeyState)
      else Emit(EmptyScalar(ts[pos + 1].start), FlowKeys(ts, ds, pos + 1))
    else Emit(EmptyScalar(ts[pos].start), FlowKeys(ts, ds, pos))
  }

  // ----- The stack and the documents ---------------------------------------------------

  /** What is still to come when the states on the stack wait for a node that ends at `pos`. */
  function Rest(ts: seq<Token>, ds: seq<TagDirective>, states: seq<State>, pos: nat): Result
    requires pos <= |ts|
    decreases |ts| - pos, 2, |states|, 0
  {
    if states == [] then FAIL
    else
      var n := |states| - 1;
      if states[n] == DocumentEndState then DocumentEndAt(ts, pos)
      else ThenRest(ts, ds, Meaning(ts, ds, states[n], pos), states[..n])
  }

  /** After the node or collection `r`, the stack is completed. */
  function ThenRest(ts: seq<Token>, ds: seq<TagDirective>, r: Result, states: seq<State>): Result
    requires From(r, 0, ts)
    decreases if r.next == None then 0 else |ts| - r.next.value, 2, |states|, 1
  {
    if r.next == None then r else Prepend(r.events, Rest(ts, ds, states, r.next.value))
  }

  function DocumentEndAt(ts: seq<Token>, pos: nat): Result
    decreases |ts| - pos, 1
  {
    if pos >= |ts| then FAIL
    else if ts[pos].typ == DocumentEndToken then
      Emit(MakeEvent(DocumentEnd, ts[pos].start, ts[pos].end), DocumentStartAt(ts, pos + 1, false))
    else Emit(MakeEvent(DocumentEnd, ts[pos].start, ts[pos].start).(implicit := true), DocumentStartAt(ts, pos, false))
  }

  function SkipEnds(ts: seq<Token>, pos: nat): (r: nat)
    ensures pos <= r
    decreases |ts| - pos
  {
    if pos < |ts| && ts[pos].typ == DocumentEndToken then SkipEnds(ts, pos + 1) else pos
  }

  /** (DIRECTIVE* DOCUMENT-START block_node? | STREAM-END); the first document may be bare. */
  function DocumentStartAt(ts: seq<Token>, pos: nat, implicit: bool): Result
    decreases |ts| - pos, 0
  {
    var p := if implicit then pos else SkipEnds(ts, pos);
    if p >= |ts| then FAIL
    else if implicit && !IsDirective(ts[p]) && ts[p].typ != DocumentStartToken && ts[p].typ != StreamEndToken then
      Emit(MakeEvent(DocumentStart, ts[p].start, ts[p].end), DocumentNode(ts, WithDefaults([]), p))
    else if ts[p].typ != StreamEndToken then
      match DirectivesAt(ts, p, None, [])
      case None => FAIL
      case Some(d) =>
        if ts[d.next].typ != DocumentStartToken then FAIL
        else
          Emit(MakeEvent(DocumentStart, ts[p].start, ts[d.next].end).(version := d.version, tagDirectives := d.tags),
               DocumentContentAt(ts, WithDefaults(d.tags), d.next + 1))
    else Single(MakeEvent(StreamEnd, ts[p].start, ts[p].end), p + 1)
  }

  function DocumentNode(ts: seq<Token>, ds: seq<TagDirective>, pos: nat): Result
    decreases |ts| - pos, 0, 0
  {
    if pos >= |ts| then FAIL
    else ThenRest(ts, ds, Node(ts, ds, pos, true, false), [DocumentEndState])
  }

  function DocumentContentAt(ts: seq<Token>, ds: seq<TagDirective>, pos: nat): Result
    decreases |ts| - pos, 2
  {
    if pos >= |ts| then FAIL
    else if IsDirective(ts[pos]) || ts[pos].typ == DocumentStartToken
            || ts[pos].typ == DocumentEndToken || ts[pos].typ == StreamEndToken then
      Emit(EmptyScalar(ts[pos].start), DocumentEndAt(ts, pos))
    else DocumentNode(ts, ds, pos)
  }

  /** stream: STREAM-START implicit_document? explicit_document* STREAM-END */
  function StreamAt(ts: seq<Token>, pos: nat): Result {
    if pos >= |ts| || ts[pos].typ != StreamStartToken then FAIL
    else Emit(MakeEvent(StreamStart, ts[pos].start, ts[pos].end), DocumentStartAt(ts, pos + 1, true))
  }

  /** What is still to come in state `s`. */
  function Remaining(ts: seq<Token>, ds: seq<TagDirective>, s: State, states: seq<State>, pos: nat): Result {
    match s
    case StreamStartState => StreamAt(ts, pos)
    case ImplicitDocumentStartState => DocumentStartAt(ts, pos, true)
    case DocumentStartState => DocumentStartAt(ts, pos, false)
    case DocumentContentState => DocumentContentAt(ts, ds, pos)
    case DocumentEndState => DocumentEndAt(ts, pos)
    case BlockNodeState => DocumentNode(ts, ds, pos)
    case EndState => Result([], Some(pos))
    case _ => ThenRest(ts, ds, Meaning(ts, ds, s, pos), states)
  }

  /** Inside a collection, the state is completed before the stack. */
  lemma Unfold(ts: seq<Token>, ds: seq<TagDirective>, s: State, states: seq<State>, pos: nat)
    requires InCollection(s)
    ensures Remaining(ts, ds, s, states, pos) == ThenRest(ts, ds, Meaning(ts, ds, s, pos), states)
  {
    hide ThenRest, Meaning, DocumentStartAt, DocumentContentAt, DocumentEndAt, DocumentNode, StreamAt;
  }

  /** What the states between collections mean. */
  lemma UnfoldOutside(ts: seq<Token>, ds: seq<TagDirective>, states: seq<State>, pos: nat)
    ensures Remaining(ts, ds, StreamStartState, states, pos) == StreamAt(ts, pos)
    ensures Remaining(ts, ds, ImplicitDocumentStartState, states, pos) == DocumentStartAt(ts, pos, true)
    ensures Remaining(ts, ds, DocumentStartState, states, pos) == DocumentStartAt(ts, pos, false)
    ensures Remaining(ts, ds, DocumentContentState, states, pos) == DocumentContentAt(ts, ds, pos)
    ensures Remaining(ts, ds, DocumentEndState, states, pos) == DocumentEndAt(ts, pos)
    ensures Remaining(ts, ds, BlockNodeState, states, pos) == DocumentNode(ts, ds, pos)
    ensures Remaining(ts, ds, EndState, states, pos) == Result([], Some(pos))
  {
    hide ThenRest, Meaning, DocumentStartAt, DocumentContentAt, DocumentEndAt, DocumentNode, StreamAt;
  }

  predicate InCollection(s: State) {
    match s
    case StreamStartState | ImplicitDocumentStartState | DocumentStartState | DocumentContentState
       | DocumentEndState | BlockNodeState | EndState => false
    case _ => true
  }

  /** In the first state of a collection, its first token is still there. */
  lemma UnfoldFirst(ts: seq<Token>, ds: seq<TagDirective>, pos: nat)
    ensures Meaning(ts, ds, BlockSequenceFirstEntryState, pos) == Meaning(ts, ds, BlockSequenceEntryState, pos + 1)
    ensures Meaning(ts, ds, BlockMappingFirstKeyState, pos) == Meaning(ts, ds, BlockMappingKeyState, pos + 1)
  {
    hide BlockItems, BlockKeys;
    if pos >= |ts| {
      PastEnd(ts, ds, pos + 1);
    }
  }

  lemma UnfoldFirstFlow(ts: seq<Token>, ds: seq<TagDirective>, pos: nat)
    ensures Meaning(ts, ds, FlowSequenceFirstEntryState, pos) == if pos + 1 >= |ts| then FAIL
      else FlowItem(ts, ds, pos + 1)
    ensures Meaning(ts, ds, FlowMappingFirstKeyState, pos) == if pos + 1 >= |ts| then FAIL
      else FlowPair(ts, ds, pos + 1)
  {
    hide FlowItem, FlowPair;
  }

  lemma PastEnd(ts: seq<Token>, ds: seq<TagDirective>, pos: nat)
    requires pos >= |ts|
    ensures BlockItems(ts, ds, pos) == FAIL == BlockKeys(ts, ds, pos)
  {
  }

  /** In the later ones, there is a separator before the entry. */
  lemma UnfoldNext(ts: seq<Token>, ds: seq<TagDirective>, pos: nat)
    ensures Meaning(ts, ds, FlowSequenceEntryState, pos) ==
            match Separated(ts, pos, FlowSequenceEndToken) case None => FAIL case Some(p) => FlowItem(ts, ds, p)
    ensures Meaning(ts, ds, FlowMappingKeyState, pos) ==
            match Separated(ts, pos, FlowMappingEndToken) case None => FAIL case Some(p) => FlowPair(ts, ds, p)
  {
    hide FlowItem, FlowPair;
  }

  // ----- Steps -------------------------------------------------------------------------

  lemma PrependPrepend(a: seq<Event>, b: seq<Event>, r: Result)
    ensures Prepend(a, Prepend(b, r)) == Prepend(a + b, r)
    ensures Prepend([], r) == r
  {
    assert a + (b + r.events) == (a + b) + r.events;
  }

  /** Pushing a state: what it waits for is completed before the rest of the stack. */
  lemma ThenPushed(ts: seq<Token>, ds: seq<TagDirective>, node: Result, s: State, states: seq<State>)
    requires From(node, 0, ts) && s != DocumentEndState
    ensures ThenRest(ts, ds, Then(ts, ds, node, s), states) == ThenRest(ts, ds, node, states + [s])
  {
    if node.next != None {
      var pos := node.next.value;
      var m := Meaning(ts, ds, s, pos);
      assert (states + [s])[..|states|] == states;
      assert Rest(ts, ds, states + [s], pos) == ThenRest(ts, ds, m, states);
      if m.next != None {
        PrependPrepend(node.events, m.events, Rest(ts, ds, states, m.next.value));
      }
    }
  }

  lemma FailThen(ts: seq<Token>, ds: seq<TagDirective>, states: seq<State>)
    ensures ThenRest(ts, ds, FAIL, states) == FAIL
  {
  }

  lemma EmitThen(ts: seq<Token>, ds: seq<TagDirective>, event: Event, r: Result, states: seq<State>)
    requires From(r, 0, ts)
    ensures ThenRest(ts, ds, Emit(event, r), states) == Emit(event, ThenRest(ts, ds, r, states))
  {
    if r.next != None {
      PrependPrepend([event], r.events, Rest(ts, ds, states, r.next.value));
    }
  }

  /** A completed node: the parser goes back to the state on top of the stack. */
  lemma SingleThen(ts: seq<Token>, ds: seq<TagDirective>, event: Event, pos: nat, s: State, states: seq<State>)
    requires pos <= |ts|
    requires s != StreamStartState && s != ImplicitDocumentStartState && s != DocumentStartState
    requires s != DocumentContentState && s != BlockNodeState && s != EndState
    ensures ThenRest(ts, ds, Single(event, pos), states + [s]) == Emit(event, Remaining(ts, ds, s, states, pos))
  {
    assert (states + [s])[..|states|] == states;
  }

  // ----- What each state does first ----------------------------------------------------

  /** A node, with the stack that waits for it. */
  function NodeFirst(ts: seq<Token>, ds: seq<TagDirective>, pos: nat, block: bool, indentless: bool,
      states: seq<State>): Result {
    ThenRest(ts, ds, Node(ts, ds, pos, block, indentless), states)
  }

  /** An absent node, after which the parser is in state `s`. */
  function EmptyFirst(ts: seq<Token>, ds: seq<TagDirective>, pos: nat, mark: Mark, s: State,
      states: seq<State>): Result {
    Emit(EmptyScalar(mark), ThenRest(ts, ds, Meaning(ts, ds, s, pos), states))
  }

  /** The end of a collection. */
  function EndFirst(ts: seq<Token>, ds: seq<TagDirective>, pos: nat, event: Event, states: seq<State>): Result
    requires pos <= |ts|
  {
    ThenRest(ts, ds, Single(event, pos), states)
  }

  /** The directives and the start of an explicit document. */
  function ExplicitFirst(ts: seq<Token>, p: nat): Result
    requires p < |ts|
  {
    match DirectivesAt(ts, p, None, [])
    case None => FAIL
    case Some(d) =>
      if ts[d.next].typ != DocumentStartToken then FAIL
      else Emit(MakeEvent(DocumentStart, ts[p].start, ts[d.next].end).(version := d.version, tagDirectives := d.tags),
                DocumentContentAt(ts, WithDefaults(d.tags), d.next + 1))
  }

  lemma DocumentStartFirst(ts: seq<Token>, pos: nat, implicit: bool)
    ensures DocumentStartAt(ts, pos, implicit) ==
            var p := if implicit then pos else SkipEnds(ts, pos);
            if p >= |ts| then FAIL
            else if implicit && !IsDirective(ts[p]) && ts[p].typ != DocumentStartToken &&
                ts[p].typ != StreamEndToken then
              Emit(MakeEvent(DocumentStart, ts[p].start, ts[p].end), DocumentNode(ts, WithDefaults([]), p))
            else if ts[p].typ != StreamEndToken then ExplicitFirst(ts, p)
            else Single(MakeEvent(StreamEnd, ts[p].start, ts[p].end), p + 1)
  {
    hide DocumentNode, DocumentContentAt, DirectivesAt, WithDefaults;
  }

  lemma NoToken(ts: seq<Token>, pos: nat)
    requires pos >= |ts|
    ensures SkipEnds(ts, pos) == pos
  {
  }

  /** The content of a document, whose end waits on the stack. */
  lemma DocumentFirst(ts: seq<Token>, ds: seq<TagDirective>, pos: nat)
    requires pos < |ts|
    ensures DocumentNode(ts, ds, pos) == NodeFirst(ts, ds, pos, true, false, [DocumentEndState])
    ensures DocumentContentAt(ts, ds, pos) ==
            if IsDirective(ts[pos]) || ts[pos].typ == DocumentStartToken
               || ts[pos].typ == DocumentEndToken || ts[pos].typ == StreamEndToken then
              EndFirst(ts, ds, pos, EmptyScalar(ts[pos].start), [DocumentEndState])
            else NodeFirst(ts, ds, pos, true, false, [DocumentEndState])
  {
    hide Node, DocumentEndAt;
    SingleThen(ts, ds, EmptyScalar(ts[pos].start), pos, DocumentEndState, []);
    assert [] + [DocumentEndState] == [DocumentEndState];
  }

  lemma NoDocument(ts: seq<Token>, ds: seq<TagDirective>, pos: nat)
    requires pos >= |ts|
    ensures DocumentNode(ts, ds, pos) == FAIL == DocumentContentAt(ts, ds, pos)
  {
  }

  lemma BlockItemsFirst(ts: seq<Token>, ds: seq<TagDirective>, pos: nat, states: seq<State>)
    ensures ThenRest(ts, ds, Meaning(ts, ds, BlockSequenceEntryState, pos), states) ==
            if pos >= |ts| then FAIL
            else if ts[pos].typ == BlockEntryToken then
              if pos + 1 >= |ts| then FAIL
              else if ts[pos + 1].typ != BlockEntryToken && ts[pos + 1].typ != BlockEndToken then
                NodeFirst(ts, ds, pos + 1, true, false, states + [BlockSequenceEntryState])
              else EmptyFirst(ts, ds, pos + 1, ts[pos].end, BlockSequenceEntryState, states)
            else if ts[pos].typ == BlockEndToken then
              EndFirst(ts, ds, pos + 1, MakeEvent(SequenceEnd, ts[pos].start, ts[pos].end), states)
            else FAIL
  {
    hide Rest, Node;
    if pos + 1 < |ts| {
      ThenPushed(ts, ds, Node(ts, ds, pos + 1, true, false), BlockSequenceEntryState, states);
      EmitThen(ts, ds, EmptyScalar(ts[pos].end), BlockItems(ts, ds, pos + 1), states);
    }
  }

  lemma IndentlessFirst(ts: seq<Token>, ds: seq<TagDirective>, pos: nat, states: seq<State>)
    ensures ThenRest(ts, ds, Meaning(ts, ds, IndentlessSequenceEntryState, pos), states) ==
            if pos >= |ts| then FAIL
            else if ts[pos].typ == BlockEntryToken then
              if pos + 1 >= |ts| then FAIL
              else if ts[pos + 1].typ != BlockEntryToken && ts[pos + 1].typ != KeyToken
                      && ts[pos + 1].typ != ValueToken && ts[pos + 1].typ != BlockEndToken then
                NodeFirst(ts, ds, pos + 1, true, false, states + [IndentlessSequenceEntryState])
              else EmptyFirst(ts, ds, pos + 1, ts[pos].end, IndentlessSequenceEntryState, states)
            else EndFirst(ts, ds, pos, MakeEvent(SequenceEnd, ts[pos].start, ts[pos].start), states)
  {
    hide Rest, Node;
    if pos + 1 < |ts| {
      ThenPushed(ts, ds, Node(ts, ds, pos + 1, true, false), IndentlessSequenceEntryState, states);
      EmitThen(ts, ds, EmptyScalar(ts[pos].end), Indentless(ts, ds, pos + 1), states);
    }
  }

  lemma BlockKeysFirst(ts: seq<Token>, ds: seq<TagDirective>, pos: nat, states: seq<State>)
    ensures ThenRest(ts, ds, Meaning(ts, ds, BlockMappingKeyState, pos), states) ==
            if pos >= |ts| then FAIL
            else if ts[pos].typ == KeyToken then
              if pos + 1 >= |ts| then FAIL
              else if ts[pos + 1].typ != KeyToken && ts[pos + 1].typ != ValueToken &&
                  ts[pos + 1].typ != BlockEndToken then
                NodeFirst(ts, ds, pos + 1, true, true, states + [BlockMappingValueState])
              else EmptyFirst(ts, ds, pos + 1, ts[pos].end, BlockMappingValueState, states)
            else if ts[pos].typ == BlockEndToken then
              EndFirst(ts, ds, pos + 1, MakeEvent(MappingEnd, ts[pos].start, ts[pos].end), states)
            else FAIL
  {
    hide Rest, Node;
    if pos + 1 < |ts| {
      ThenPushed(ts, ds, Node(ts, ds, pos + 1, true, true), BlockMappingValueState, states);
      EmitThen(ts, ds, EmptyScalar(ts[pos].end), BlockValue(ts, ds, pos + 1), states);
    }
  }

  lemma BlockValueFirst(ts: seq<Token>, ds: seq<TagDirective>, pos: nat, states: seq<State>)
    ensures ThenRest(ts, ds, Meaning(ts, ds, BlockMappingValueState, pos), states) ==
            if pos >= |ts| then FAIL
            else if ts[pos].typ == ValueToken then
              if pos + 1 >= |ts| then FAIL
              else if ts[pos + 1].typ != KeyToken && ts[pos + 1].typ != ValueToken &&
                  ts[pos + 1].typ != BlockEndToken then
                NodeFirst(ts, ds, pos + 1, true, true, states + [BlockMappingKeyState])
              else EmptyFirst(ts, ds, pos + 1, ts[pos].end, BlockMappingKeyState, states)
            else EmptyFirst(ts, ds, pos, ts[pos].start, BlockMappingKeyState, states)
  {
    hide Rest, Node;
    if pos < |ts| {
      EmitThen(ts, ds, EmptyScalar(ts[pos].start), BlockKeys(ts, ds, pos), states);
    }
    if pos + 1 < |ts| {
      ThenPushed(ts, ds, Node(ts, ds, pos + 1, true, true), BlockMappingKeyState, states);
      EmitThen(ts, ds, EmptyScalar(ts[pos].end), BlockKeys(ts, ds, pos + 1), states);
    }
  }

  lemma FlowItemFirst(ts: seq<Token>, ds: seq<TagDirective>, pos: nat, states: seq<State>)
    requires pos < |ts|
    ensures ThenRest(ts, ds, FlowItem(ts, ds, pos), states) ==
            if ts[pos].typ == KeyToken then
              StartFirst(ts, ds, pos + 1,
                  MakeEvent(MappingStart, ts[pos].start, ts[pos].end).(implicit := true, style := Flow),
                         FlowSequenceEntryMappingKeyState, states)
            else if ts[pos].typ != FlowSequenceEndToken then
              NodeFirst(ts, ds, pos, false, false, states + [FlowSequenceEntryState])
            else EndFirst(ts, ds, pos + 1, MakeEvent(SequenceEnd, ts[pos].start, ts[pos].end), states)
  {
    hide Rest, Node;
    ThenPushed(ts, ds, Node(ts, ds, pos, false, false), FlowSequenceEntryState, states);
    EmitThen(ts, ds, MakeEvent(MappingStart, ts[pos].start, ts[pos].end).(implicit := true, style := Flow),
             PairKey(ts, ds, pos + 1), states);
  }

  lemma PairKeyFirst(ts: seq<Token>, ds: seq<TagDirective>, pos: nat, states: seq<State>)
    ensures ThenRest(ts, ds, Meaning(ts, ds, FlowSequenceEntryMappingKeyState, pos), states) ==
            if pos >= |ts| then FAIL
            else if ts[pos].typ != ValueToken && ts[pos].typ != FlowEntryToken &&
                ts[pos].typ != FlowSequenceEndToken then
              NodeFirst(ts, ds, pos, false, false, states + [FlowSequenceEntryMappingValueState])
            else EmptyFirst(ts, ds, pos + 1, ts[pos].end, FlowSequenceEntryMappingValueState, states)
  {
    hide Rest, Node;
    if pos < |ts| {
      ThenPushed(ts, ds, Node(ts, ds, pos, false, false), FlowSequenceEntryMappingValueState, states);
      EmitThen(ts, ds, EmptyScalar(ts[pos].end), PairValue(ts, ds, pos + 1), states);
    }
  }

  lemma PairValueFirst(ts: seq<Token>, ds: seq<TagDirective>, pos: nat, states: seq<State>)
    ensures ThenRest(ts, ds, Meaning(ts, ds, FlowSequenceEntryMappingValueState, pos), states) ==
            if pos >= |ts| then FAIL
            else if ts[pos].typ == ValueToken then
              if pos + 1 >= |ts| then FAIL
              else if ts[pos + 1].typ != FlowEntryToken && ts[pos + 1].typ != FlowSequenceEndToken then
                NodeFirst(ts, ds, pos + 1, false, false, states + [FlowSequenceEntryMappingEndState])
              else EmptyFirst(ts, ds, pos + 1, ts[pos].start, FlowSequenceEntryMappingEndState, states)
            else EmptyFirst(ts, ds, pos, ts[pos].start, FlowSequenceEntryMappingEndState, states)
  {
    hide Rest, Node;
    if pos < |ts| {
      EmitThen(ts, ds, EmptyScalar(ts[pos].start), PairEnd(ts, ds, pos), states);
    }
    if pos + 1 < |ts| {
      ThenPushed(ts, ds, Node(ts, ds, pos + 1, false, false), FlowSequenceEntryMappingEndState, states);
      EmitThen(ts, ds, EmptyScalar(ts[pos].start), PairEnd(ts, ds, pos + 1), states);
    }
  }

  lemma PairEndFirst(ts: seq<Token>, ds: seq<TagDirective>, pos: nat, states: seq<State>)
    ensures ThenRest(ts, ds, Meaning(ts, ds, FlowSequenceEntryMappingEndState, pos), states) ==
            if pos >= |ts| then FAIL
            else StartFirst(ts, ds, pos, MakeEvent(MappingEnd, ts[pos].start, ts[pos].start), FlowSequenceEntryState,
                states)
  {
    hide Rest, FlowItems;
    if pos < |ts| {
      EmitThen(ts, ds, MakeEvent(MappingEnd, ts[pos].start, ts[pos].start), FlowItems(ts, ds, pos), states);
    }
  }

  /** What follows a key indicator in a flow mapping. */
  function KeyFirst(ts: seq<Token>, ds: seq<TagDirective>, pos: nat, states: seq<State>): Result {
    if pos >= |ts| then FAIL
    else if ts[pos].typ != ValueToken && ts[pos].typ != FlowEntryToken && ts[pos].typ != FlowMappingEndToken then
      NodeFirst(ts, ds, pos, false, false, states + [FlowMappingValueState])
    else EmptyFirst(ts, ds, pos, ts[pos].start, FlowMappingValueState, states)
  }

  lemma FlowPairFirst(ts: seq<Token>, ds: seq<TagDirective>, pos: nat, states: seq<State>)
    requires pos < |ts|
    ensures ThenRest(ts, ds, FlowPair(ts, ds, pos), states) ==
            if ts[pos].typ == KeyToken then KeyFirst(ts, ds, pos + 1, states)
            else if ts[pos].typ != FlowMappingEndToken then
              NodeFirst(ts, ds, pos, false, false, states + [FlowMappingEmptyValueState])
            else EndFirst(ts, ds, pos + 1, MakeEvent(MappingEnd, ts[pos].start, ts[pos].end), states)
  {
    hide Rest, Node;
    ThenPushed(ts, ds, Node(ts, ds, pos, false, false), FlowMappingEmptyValueState, states);
    if pos + 1 < |ts| {
      ThenPushed(ts, ds, Node(ts, ds, pos + 1, false, false), FlowMappingValueState, states);
      EmitThen(ts, ds, EmptyScalar(ts[pos + 1].start), FlowValue(ts, ds, pos + 1, false), states);
    }
  }

  lemma FlowValueMeaning(ts: seq<Token>, ds: seq<TagDirective>, pos: nat)
    ensures Meaning(ts, ds, FlowMappingEmptyValueState, pos) == FlowValue(ts, ds, pos, true)
    ensures Meaning(ts, ds, FlowMappingValueState, pos) == FlowValue(ts, ds, pos, false)
    ensures Meaning(ts, ds, FlowMappingKeyState, pos) == FlowKeys(ts, ds, pos)
    ensures Meaning(ts, ds, FlowMappingKeyState, pos + 1) == FlowKeys(ts, ds, pos + 1)
  {
    hide FlowPair, Then, Node;
  }

  lemma FlowValueFirst(ts: seq<Token>, ds: seq<TagDirective>, pos: nat, empty: bool, states: seq<State>)
    ensures ThenRest(ts, ds,
      Meaning(ts, ds, if empty then FlowMappingEmptyValueState else FlowMappingValueState, pos), states) ==
            if pos >= |ts| then FAIL
            else if !empty && ts[pos].typ == ValueToken then
              if pos + 1 >= |ts| then FAIL
              else if ts[pos + 1].typ != FlowEntryToken && ts[pos + 1].typ != FlowMappingEndToken then
                NodeFirst(ts, ds, pos + 1, false, false, states + [FlowMappingKeyState])
              else EmptyFirst(ts, ds, pos + 1, ts[pos + 1].start, FlowMappingKeyState, states)
            else EmptyFirst(ts, ds, pos, ts[pos].start, FlowMappingKeyState, states)
  {
    hide ThenRest, Emit, Node, Meaning, Then, FlowKeys;
    FlowValueMeaning(ts, ds, pos);
    FailThen(ts, ds, states);
    if pos < |ts| {
      if empty || ts[pos].typ != ValueToken {
        EmitThen(ts, ds, EmptyScalar(ts[pos].start), FlowKeys(ts, ds, pos), states);
      } else if pos + 1 < |ts| {
        ThenPushed(ts, ds, Node(ts, ds, pos + 1, false, false), FlowMappingKeyState, states);
        EmitThen(ts, ds, EmptyScalar(ts[pos + 1].start), FlowKeys(ts, ds, pos + 1), states);
      }
    }
  }

  /** The content of a node, with the stack that waits for it. */
  function ContentFirst(ts: seq<Token>, ds: seq<TagDirective>, n: nat, block: bool, indentless: bool,
      anchor: Option<string>, tag: string, start: Mark, end: Mark, states: seq<State>): Result
    requires n < |ts|
  {
    ThenRest(ts, ds, Content(ts, ds, n, block, indentless, anchor, tag, start, end), states)
  }

  /** A collection, whose first state is `s`. */
  function StartFirst(ts: seq<Token>, ds: seq<TagDirective>, pos: nat, event: Event, s: State,
      states: seq<State>): Result {
    Emit(event, ThenRest(ts, ds, Meaning(ts, ds, s, pos), states))
  }

  lemma StartThen(ts: seq<Token>, ds: seq<TagDirective>, pos: nat, event: Event, s: State, r: Result,
      states: seq<State>)
    requires From(r, 0, ts) && r == Meaning(ts, ds, s, pos)
    ensures ThenRest(ts, ds, Emit(event, r), states) == StartFirst(ts, ds, pos, event, s, states)
  {
    hide Meaning, ThenRest, Emit;
    EmitThen(ts, ds, event, r, states);
  }

  lemma MeaningOfFirst(ts: seq<Token>, ds: seq<TagDirective>, pos: nat)
    requires pos < |ts|
    ensures Meaning(ts, ds, IndentlessSequenceEntryState, pos) == Indentless(ts, ds, pos)
    ensures Meaning(ts, ds, FlowSequenceFirstEntryState, pos) == FlowSequence(ts, ds, pos)
    ensures Meaning(ts, ds, FlowMappingFirstKeyState, pos) == FlowMapping(ts, ds, pos)
    ensures Meaning(ts, ds, BlockSequenceFirstEntryState, pos) == BlockItems(ts, ds, pos + 1)
    ensures Meaning(ts, ds, BlockMappingFirstKeyState, pos) == BlockKeys(ts, ds, pos + 1)
  {
    hide Indentless, FlowSequence, FlowMapping, BlockItems, BlockKeys;
  }

  lemma ContentThen(ts: seq<Token>, ds: seq<TagDirective>, n: nat, block: bool, indentless: bool,
      anchor: Option<string>, tag: string, start: Mark, end: Mark, states: seq<State>)
    requires n < |ts|
    ensures ContentFirst(ts, ds, n, block, indentless, anchor, tag, start, end, states) ==
            var t := ts[n];
            var e := MakeEvent(SequenceStart, start, t.end).(anchor := anchor, tag := tag, implicit := tag == "");
            if indentless && t.typ == BlockEntryToken then
              StartFirst(ts, ds, n, e.(style := Block), IndentlessSequenceEntryState, states)
            else if t.typ == ScalarToken then EndFirst(ts, ds, n + 1, ScalarEvent(e, t), states)
            else if t.typ == FlowSequenceStartToken then
              StartFirst(ts, ds, n, e.(style := Flow), FlowSequenceFirstEntryState, states)
            else if t.typ == FlowMappingStartToken then
              StartFirst(ts, ds, n, e.(kind := MappingStart, style := Flow), FlowMappingFirstKeyState, states)
            else if block && t.typ == BlockSequenceStartToken then
              StartFirst(ts, ds, n, e.(style := Block), BlockSequenceFirstEntryState, states)
            else if block && t.typ == BlockMappingStartToken then
              StartFirst(ts, ds, n, e.(kind := MappingStart, style := Block), BlockMappingFirstKeyState, states)
            else if (anchor != None && anchor.value != "") || tag != "" then
              EndFirst(ts, ds, n, e.(kind := Scalar, end := end, style := Plain), states)
            else FAIL
  {
    hide ThenRest, Indentless, FlowSequence, FlowMapping, BlockItems, BlockKeys, ScalarEvent, Emit, Meaning;
    MeaningOfFirst(ts, ds, n);
    var t := ts[n];
    var e := MakeEvent(SequenceStart, start, t.end).(anchor := anchor, tag := tag, implicit := tag == "");
    if indentless && t.typ == BlockEntryToken {
      StartThen(ts, ds, n, e.(style := Block), IndentlessSequenceEntryState, Indentless(ts, ds, n), states);
    } else if t.typ == FlowSequenceStartToken {
      StartThen(ts, ds, n, e.(style := Flow), FlowSequenceFirstEntryState, FlowSequence(ts, ds, n), states);
    } else if t.typ == FlowMappingStartToken {
      StartThen(ts, ds, n, e.(kind := MappingStart, style := Flow), FlowMappingFirstKeyState, FlowMapping(ts, ds, n),
          states);
    } else if block && t.typ == BlockSequenceStartToken {
      StartThen(ts, ds, n, e.(style := Block), BlockSequenceFirstEntryState, BlockItems(ts, ds, n + 1), states);
    } else if block && t.typ == BlockMappingStartToken {
      StartThen(ts, ds, n, e.(kind := MappingStart, style := Block), BlockMappingFirstKeyState,
          BlockKeys(ts, ds, n + 1), states);
    } else {
      FailThen(ts, ds, states);
    }
  }

  /** A node is an alias, or its content after its properties. */
  lemma NodeIs(ts: seq<Token>, ds: seq<TagDirective>, pos: nat, block: bool, indentless: bool, states: seq<State>)
    requires pos < |ts|
    ensures NodeFirst(ts, ds, pos, block, indentless, states) ==
            if ts[pos].typ == AliasToken then
              EndFirst(ts, ds, pos + 1, MakeEvent(Alias, ts[pos].start, ts[pos].end).(anchor := Some(ts[pos].value)),
                  states)
            else
              var n := PropertiesEnd(ts, pos);
              var tag := Resolved(TagIn(ts[pos..n]), ds);
              if n >= |ts| || tag == None then FAIL
              else
                ContentFirst(ts, ds, n, block, indentless, AnchorIn(ts[pos..n]), tag.value, ts[pos].start,
                             if n == pos then ts[pos].start else ts[n - 1].end, states)
  {
    hide ThenRest, Content, AnchorIn, TagIn, Resolved, PropertiesEnd;
    FailThen(ts, ds, states);
  }

  lemma FlowEntryFirst(ts: seq<Token>, ds: seq<TagDirective>, pos: nat, first: bool, states: seq<State>)
    ensures ThenRest(ts, ds,
      Meaning(ts, ds, if first then FlowSequenceFirstEntryState else FlowSequenceEntryState, pos), states) ==
            if first then if pos + 1 >= |ts| then FAIL else ThenRest(ts, ds, FlowItem(ts, ds, pos + 1), states)
            else
              match Separated(ts, pos, FlowSequenceEndToken)
              case None => FAIL
              case Some(p) => ThenRest(ts, ds, FlowItem(ts, ds, p), states)
  {
    hide ThenRest, Meaning, FlowItem, FlowPair;
    FailThen(ts, ds, states);
    UnfoldFirstFlow(ts, ds, pos);
    UnfoldNext(ts, ds, pos);
  }

  lemma FlowKeyFirst(ts: seq<Token>, ds: seq<TagDirective>, pos: nat, first: bool, states: seq<State>)
    ensures ThenRest(ts, ds, Meaning(ts, ds, if first then FlowMappingFirstKeyState else FlowMappingKeyState, pos),
      states) ==
            if first then if pos + 1 >= |ts| then FAIL else ThenRest(ts, ds, FlowPair(ts, ds, pos + 1), states)
            else
              match Separated(ts, pos, FlowMappingEndToken)
              case None => FAIL
              case Some(p) => ThenRest(ts, ds, FlowPair(ts, ds, p), states)
  {
    hide ThenRest, Meaning, FlowItem, FlowPair;
    FailThen(ts, ds, states);
    UnfoldFirstFlow(ts, ds, pos);
    UnfoldNext(ts, ds, pos);
  }
}
