/** What the events of a stream say about its tokens, without recursion over productions.
  *
  * Every event stands for a window of tokens: the indicators that lead to it, the properties of a
  * node, and its content. `Fits` says, for one event at one place of the grammar, which windows
  * and which fields are right; `Reads` lays the windows of a sequence of events side by side. A
  * token sequence has exactly one reading that cannot be continued (`OneReading`). */
module YamlWindows {
  import opened Options
  import opened YamlEvents
  import opened YamlTokens

  // ----- Places of the grammar ---------------------------------------------------------

  datatype Form = BlockForm | IndentlessForm | FlowForm | PairForm

  /** What comes next in a mapping; there is no value after a key without its indicator. */
  datatype Part = FirstKey | NextKey | Value | NoValue

  /** An open production. */
  datatype Level =
    | DocumentLevel(filled: bool, explicit: bool)
    | SequenceLevel(form: Form, first: bool)
    | MappingLevel(form: Form, part: Part)

  /** Where the events so far lead to, with the tag directives of the document. */
  datatype Place =
    | Before
    | Between(first: bool)
    | Within(levels: seq<Level>, directives: seq<TagDirective>)
    | Over

  /** The tokens from `start` on are the properties of a node, those from `content` on its content. */
  datatype Window = Window(start: nat, content: nat, end: nat)

  function Bare(kind: EventKind, start: Mark, end: Mark): Event {
    Event(kind, start, end, None, "", "", false, false, AnyStyle, None, [])
  }

  predicate Is(ts: seq<Token>, i: nat, typ: TokenType) {
    i < |ts| && ts[i].typ == typ
  }

  predicate IsOneOf(ts: seq<Token>, i: nat, typs: set<TokenType>) {
    i < |ts| && ts[i].typ in typs
  }

  // ----- What leads to a node ----------------------------------------------------------

  /** `m` is behind the "," between two entries of a flow collection. */
  predicate Parted(ts: seq<Token>, first: bool, from: nat, m: nat) {
    if first then m == from else Is(ts, from, FlowEntryToken) && m == from + 1
  }

  /** The tokens at which a node is absent. */
  function Enders(l: Level): set<TokenType> {
    match l
    case DocumentLevel(_, explicit) =>
      if explicit then
        {VersionDirectiveToken, TagDirectiveToken, DocumentStartToken, DocumentEndToken, StreamEndToken}
      else {}
    case SequenceLevel(form, _) =>
      if form == BlockForm then {BlockEntryToken, BlockEndToken}
      else if form == IndentlessForm then {BlockEntryToken, KeyToken, ValueToken, BlockEndToken}
      else {}
    case MappingLevel(form, part) =>
      if form == BlockForm then {KeyToken, ValueToken, BlockEndToken}
      else if form == FlowForm then
        if part == Value then {FlowEntryToken, FlowMappingEndToken}
        else {ValueToken, FlowEntryToken, FlowMappingEndToken}
      else
        if part == Value then {FlowEntryToken, FlowSequenceEndToken}
        else {ValueToken, FlowEntryToken, FlowSequenceEndToken}
  }

  /** At `n` there is a node, or none. */
  predicate Starts(ts: seq<Token>, l: Level, n: nat, absent: bool) {
    n < |ts| && (absent <==> ts[n].typ in Enders(l))
  }

  /** The tokens before `n` lead to a node; `absent` says that there is none. When the key of a
    * single pair is absent, the token at which this is seen is lost. */
  predicate Leads(ts: seq<Token>, l: Level, from: nat, n: nat, absent: bool) {
    from < |ts| &&
    match l
    case DocumentLevel(filled, _) =>
      !filled && n == from && Starts(ts, l, n, absent)
    case SequenceLevel(form, first) =>
      if form == FlowForm then
        n < |ts| && Parted(ts, first, from, n) && ts[n].typ != KeyToken && ts[n].typ != FlowSequenceEndToken && !absent
      else
        Is(ts, from, BlockEntryToken) && n == from + 1 && Starts(ts, l, n, absent)
    case MappingLevel(form, part) =>
      if part == Value then
        if Is(ts, from, ValueToken) then n == from + 1 && Starts(ts, l, n, absent) else n == from && absent
      else if part == NoValue then
        n == from && absent
      else if form == BlockForm then
        Is(ts, from, KeyToken) && n == from + 1 && Starts(ts, l, n, absent)
      else if form == FlowForm then
        || (n > from && Parted(ts, part == FirstKey, from, n - 1) && Is(ts, n - 1, KeyToken)
            && Starts(ts, l, n, absent))
        || (n < |ts| && Parted(ts, part == FirstKey, from, n) && ts[n].typ != KeyToken
            && ts[n].typ != FlowMappingEndToken && !absent)
      else
        && form == PairForm && part == FirstKey
        && if ts[from].typ in Enders(l) then n == from + 1 && absent else n == from && !absent
  }

  /** Where an absent node is. */
  function MarkOfAbsent(ts: seq<Token>, l: Level, from: nat, n: nat): Mark
    requires Leads(ts, l, from, n, true)
  {
    match l
    case DocumentLevel(_, _) => ts[n].start
    case SequenceLevel(_, _) => ts[from].end
    case MappingLevel(form, part) =>
      if form == BlockForm then if n == from then ts[from].start else ts[from].end
      else if form == FlowForm then ts[n].start
      else if part == FirstKey then ts[from].end
      else ts[from].start
  }

  // ----- Properties --------------------------------------------------------------------

  /** The tag that a tag token stands for: as it is written, or with the prefix of its handle. */
  predicate TagMeans(t: Token, ds: seq<TagDirective>, tag: string) {
    if t.value == "" then tag == t.suffix
    else
      && tag != ""
      && ((exists i :: 0 <= i < |ds| && FirstFor(ds, i, t.value) && tag == ds[i].prefix + t.suffix)
          || (!HasHandle(ds, t.value)
              && ((t.value == "!" && tag == "!" + t.suffix)
                  || (t.value == "!!" && tag == "tag:yaml.org,2002:" + t.suffix))))
  }

  predicate FirstFor(ds: seq<TagDirective>, i: nat, handle: string) {
    i < |ds| && ds[i].handle == handle && forall j :: 0 <= j < i ==> ds[j].handle != handle
  }

  predicate IsAnchor(ts: seq<Token>, i: nat, anchor: Option<string>) {
    Is(ts, i, AnchorToken) && anchor == Some(ts[i].value)
  }

  predicate IsTag(ts: seq<Token>, ds: seq<TagDirective>, i: nat, tag: string) {
    Is(ts, i, TagToken) && TagMeans(ts[i], ds, tag)
  }

  /** The tokens from `i` to `n` are all the properties of a node, in either order. */
  predicate Properties(ts: seq<Token>, ds: seq<TagDirective>, i: nat, n: nat, anchor: Option<string>, tag: string) {
    i <= n < |ts| &&
    if n == i then
      anchor == None && tag == "" && ts[i].typ != AnchorToken && ts[i].typ != TagToken
    else if n == i + 1 then
      || (IsAnchor(ts, i, anchor) && tag == "" && ts[n].typ != TagToken)
      || (IsTag(ts, ds, i, tag) && anchor == None && ts[n].typ != AnchorToken)
    else
      && n == i + 2
      && (|| (IsAnchor(ts, i, anchor) && IsTag(ts, ds, i + 1, tag))
          || (IsTag(ts, ds, i, tag) && IsAnchor(ts, i + 1, anchor)))
  }

  // ----- Content -----------------------------------------------------------------------

  /** The collection that a token opens inside `l`. */
  function Opened(l: Level, typ: TokenType): Option<Level> {
    var block := l.DocumentLevel? || l.form == BlockForm || l.form == IndentlessForm;
    match typ
    case FlowSequenceStartToken => Some(SequenceLevel(FlowForm, true))
    case FlowMappingStartToken => Some(MappingLevel(FlowForm, FirstKey))
    case BlockSequenceStartToken => if block then Some(SequenceLevel(BlockForm, true)) else None
    case BlockMappingStartToken => if block then Some(MappingLevel(BlockForm, FirstKey)) else None
    case BlockEntryToken =>
      if l.MappingLevel? && l.form == BlockForm then Some(SequenceLevel(IndentlessForm, true)) else None
    case _ => None
  }

  function StyleOf(l: Level): Style
    requires !l.DocumentLevel?
  {
    if l.form == FlowForm || l.form == PairForm then Flow else Block
  }

  /** The flags of a scalar by its tag and its style. */
  predicate ScalarFlags(e: Event) {
    && (e.tag == "" ==> (e.implicit <==> e.style == Plain) && (e.quotedImplicit <==> e.style != Plain))
    && (e.tag == "!" ==> e.implicit && !e.quotedImplicit)
    && (e.tag != "" && e.tag != "!" ==> !e.implicit && !e.quotedImplicit)
  }

  /** The content of a node with properties. */
  predicate ContentFits(ts: seq<Token>, l: Level, e: Event, w: Window)
    requires w.start <= w.content < |ts|
  {
    var t := ts[w.content];
    && e.start == ts[w.start].start && e.version == None && e.tagDirectives == []
    && if t.typ == ScalarToken then
         && e.kind == Scalar && e.value == t.value && e.style == t.style && e.end == t.end && w.end == w.content + 1
         && ScalarFlags(e)
       else if Opened(l, t.typ).Some? then
         var inner := Opened(l, t.typ).value;
         && e.kind == (if inner.SequenceLevel? then SequenceStart else MappingStart)
         && e.value == "" && e.style == StyleOf(inner) && e.end == t.end
         && w.end == (if t.typ == BlockEntryToken then w.content else w.content + 1)
         && (e.implicit <==> e.tag == "") && !e.quotedImplicit
       else
         && w.content > w.start && ((e.anchor != None && e.anchor.value != "") || e.tag != "")
         && e.kind == Scalar && e.value == "" && e.style == Plain && e.end == ts[w.content - 1].end
         && w.end == w.content && (e.implicit <==> e.tag == "") && !e.quotedImplicit
  }

  /** An alias, a scalar or the start of a collection inside `l`. */
  predicate NodeFits(ts: seq<Token>, ds: seq<TagDirective>, l: Level, from: nat, e: Event, w: Window) {
    && w.start <= w.content < |ts|
    && if Is(ts, w.start, AliasToken) then
         && Leads(ts, l, from, w.start, false) && w.content == w.start && w.end == w.start + 1
         && e == Bare(Alias, ts[w.start].start, ts[w.start].end).(anchor := Some(ts[w.start].value))
       else
         && Leads(ts, l, from, w.start, false) && Properties(ts, ds, w.start, w.content, e.anchor, e.tag)
         && ContentFits(ts, l, e, w)
  }

  /** A node that is not there is an empty plain scalar. */
  predicate AbsentFits(ts: seq<Token>, l: Level, from: nat, e: Event, w: Window) {
    && Leads(ts, l, from, w.start, true) && w.start == w.content == w.end
    && var mark := MarkOfAbsent(ts, l, from, w.start);
       e == Bare(Scalar, mark, mark).(implicit := true, style := Plain)
  }

  /** The mapping of a single pair in a flow sequence starts with KEY. */
  predicate PairFits(ts: seq<Token>, l: Level, from: nat, e: Event, w: Window) {
    && l.SequenceLevel? && l.form == FlowForm && Parted(ts, l.first, from, w.start)
    && Is(ts, w.start, KeyToken) && w.content == w.start && w.end == w.start + 1
    && e == Bare(MappingStart, ts[w.start].start, ts[w.start].end).(implicit := true, style := Flow)
  }

  /** The end of the production `l`. */
  predicate EndFits(ts: seq<Token>, l: Level, from: nat, e: Event, w: Window) {
    && w.start == w.content
    && match l
       case DocumentLevel(filled, _) =>
         && filled && w.start == from < |ts|
         && (if ts[from].typ == DocumentEndToken then
               w.end == from + 1 && e == Bare(DocumentEnd, ts[from].start, ts[from].end)
             else w.end == from && e == Bare(DocumentEnd, ts[from].start, ts[from].start).(implicit := true))
       case SequenceLevel(form, first) =>
         if form == IndentlessForm then
           && w.start == from == w.end < |ts| && ts[from].typ != BlockEntryToken
           && e == Bare(SequenceEnd, ts[from].start, ts[from].start)
         else
           && Closed(ts, form == FlowForm && !first, from, w,
                     if form == FlowForm then FlowSequenceEndToken else BlockEndToken)
           && e == Bare(SequenceEnd, ts[w.start].start, ts[w.start].end)
       case MappingLevel(form, part) =>
         if form == PairForm then
           && part == NextKey && w.start == from == w.end < |ts|
           && e == Bare(MappingEnd, ts[from].start, ts[from].start)
         else
           && (part == FirstKey || part == NextKey)
           && Closed(ts, form == FlowForm && part == NextKey, from, w,
                if form == FlowForm then FlowMappingEndToken else BlockEndToken)
           && e == Bare(MappingEnd, ts[w.start].start, ts[w.start].end)
  }

  /** The token that closes a collection, behind a last "," if there may be one. */
  predicate Closed(ts: seq<Token>, comma: bool, from: nat, w: Window, close: TokenType) {
    && Is(ts, w.start, close) && w.end == w.start + 1
    && (w.start == from || (comma && Is(ts, from, FlowEntryToken) && w.start == from + 1))
  }

  // ----- Documents ---------------------------------------------------------------------

  predicate IsDirectiveAt(ts: seq<Token>, i: nat) {
    IsOneOf(ts, i, {VersionDirectiveToken, TagDirectiveToken})
  }

  function TagsIn(ts: seq<Token>): seq<TagDirective> {
    if ts == [] then []
    else
      var last := ts[|ts| - 1];
      TagsIn(ts[..|ts| - 1]) + if last.typ == TagDirectiveToken then [TagDirective(last.value, last.prefix)] else []
  }

  /** The tokens from `i` to `n` are directives that give this version and these tags; none is repeated. */
  predicate Collected(ts: seq<Token>, i: nat, n: nat, version: Option<(int, int)>, tags: seq<TagDirective>) {
    && i <= n <= |ts| && (forall j :: i <= j < n ==> IsDirectiveAt(ts, j))
    && (forall j :: i <= j < n && ts[j].typ == VersionDirectiveToken ==> ts[j].major == 1 && ts[j].minor == 1)
    && (forall j, k :: i <= j < k < n && ts[j].typ == VersionDirectiveToken ==> ts[k].typ != VersionDirectiveToken)
    && (forall j, k :: i <= j < k < n && ts[j].typ == ts[k].typ == TagDirectiveToken ==> ts[j].value != ts[k].value)
    && version == (if exists j :: i <= j < n && ts[j].typ == VersionDirectiveToken then Some((1, 1)) else None)
    && tags == TagsIn(ts[i..n])
  }

  /** The tokens from `i` to `n` are all the directives of a document. */
  predicate DirectivesFit(ts: seq<Token>, i: nat, n: nat, e: Event) {
    n < |ts| && !IsDirectiveAt(ts, n) && Collected(ts, i, n, e.version, e.tagDirectives)
  }

  /** Document ends between documents are passed over. */
  predicate Passes(ts: seq<Token>, first: bool, from: nat, n: nat) {
    && from <= n < |ts| && (first ==> n == from)
    && (!first ==> (forall j :: from <= j < n ==> ts[j].typ == DocumentEndToken) && ts[n].typ != DocumentEndToken)
  }

  /** Only the first document can do without an indicator. */
  predicate DocumentFits(ts: seq<Token>, first: bool, from: nat, e: Event, w: Window) {
    && Passes(ts, first, from, w.start)
    && var t := ts[w.start];
       if first && !IsDirectiveAt(ts, w.start) && t.typ != DocumentStartToken && t.typ != StreamEndToken then
         w.content == w.end == w.start && e == Bare(DocumentStart, t.start, t.end)
       else
         && t.typ != StreamEndToken && DirectivesFit(ts, w.start, w.content, e)
         && Is(ts, w.content, DocumentStartToken) && w.end == w.content + 1
         && e == Bare(DocumentStart, t.start, ts[w.content].end)
                   .(version := e.version, tagDirectives := e.tagDirectives)
  }

  predicate StreamEndFits(ts: seq<Token>, first: bool, from: nat, e: Event, w: Window) {
    && Passes(ts, first, from, w.start) && Is(ts, w.start, StreamEndToken)
    && w.content == w.start && w.end == w.start + 1
    && e == Bare(StreamEnd, ts[w.start].start, ts[w.start].end)
  }

  // ----- Readings ----------------------------------------------------------------------

  /** The event `e` is right at `p`, for the tokens from `from` to the end of `w`. */
  predicate Fits(ts: seq<Token>, p: Place, from: nat, e: Event, w: Window) {
    from <= w.start <= w.content <= w.end <= |ts| &&
    match p
    case Before => w == Window(from, from, from + 1) && Is(ts, from, StreamStartToken)
      && e == Bare(StreamStart, ts[from].start, ts[from].end)
    case Between(first) => DocumentFits(ts, first, from, e, w) || StreamEndFits(ts, first, from, e, w)
    case Within(levels, ds) => levels != [] &&
      var l := levels[|levels| - 1];
      || NodeFits(ts, ds, l, from, e, w) || AbsentFits(ts, l, from, e, w) || PairFits(ts, l, from, e, w)
      || EndFits(ts, l, from, e, w)
    case Over => false
  }

  /** The production `l` after one more node, which has the indicator KEY or not. */
  function Filled(l: Level, key: bool): Level {
    match l
    case DocumentLevel(_, explicit) => DocumentLevel(true, explicit)
    case SequenceLevel(form, _) => SequenceLevel(form, false)
    case MappingLevel(form, part) =>
      MappingLevel(form,
        if part == Value || part == NoValue then NextKey else if form == FlowForm && !key then NoValue else Value)
  }

  /** The production that the content at `i` opens inside `l`. */
  function Inner(ts: seq<Token>, l: Level, i: nat): Level {
    if Is(ts, i, KeyToken) then MappingLevel(PairForm, FirstKey)
    else if i < |ts| && Opened(l, ts[i].typ).Some? then Opened(l, ts[i].typ).value
    else l
  }

  function WithChild(ts: seq<Token>, levels: seq<Level>, from: nat, start: nat): seq<Level>
    requires levels != []
  {
    var n := |levels| - 1;
    levels[..n] + [Filled(levels[n], start > from && Is(ts, start - 1, KeyToken))]
  }

  /** Where the event `e` leads to. */
  function Next(ts: seq<Token>, p: Place, from: nat, e: Event, w: Window): Place {
    match p
    case Before => Between(true)
    case Over => Over
    case Between(_) =>
      if e.kind == StreamEnd then Over
      else Within([DocumentLevel(false, w.end > w.content)], e.tagDirectives)
    case Within(levels, ds) =>
      if levels == [] then Over else
      var n := |levels| - 1;
      match e.kind
      case Alias => Within(WithChild(ts, levels, from, w.start), ds)
      case Scalar => Within(WithChild(ts, levels, from, w.start), ds)
      case SequenceStart =>
        Within(WithChild(ts, levels, from, w.start) + [Inner(ts, levels[n], w.content)], ds)
      case MappingStart =>
        Within(WithChild(ts, levels, from, w.start) + [Inner(ts, levels[n], w.content)], ds)
      case _ => if n == 0 then Between(false) else Within(levels[..n], ds)
  }

  /** The events `es` and their windows lead from `p` at `from` to `q` at `to`. */
  ghost predicate Reads(ts: seq<Token>, p: Place, from: nat, es: seq<Event>, ws: seq<Window>, q: Place, to: nat)
    decreases |es|
  {
    && |ws| == |es|
    && if es == [] then p == q && from == to
       else
         && Fits(ts, p, from, es[0], ws[0])
         && Reads(ts, Next(ts, p, from, es[0], ws[0]), ws[0].end, es[1..], ws[1..], q, to)
  }

  /** No event is right at `p`. */
  ghost predicate Stuck(ts: seq<Token>, p: Place, from: nat) {
    forall e, w :: !Fits(ts, p, from, e, w)
  }

  /** The events are all that the tokens say: up to the end of the stream at `next`, or up to a
    * place at which no event is right. */
  ghost predicate Reading(ts: seq<Token>, es: seq<Event>, next: Option<nat>) {
    exists ws, p, to ::
      && Reads(ts, Before, 0, es, ws, p, to)
      && if next.Some? then p == Over && to == next.value else p != Over && Stuck(ts, p, to)
  }

  // ----- There is only one reading -----------------------------------------------------

  lemma LeadsOnce(ts: seq<Token>, l: Level, from: nat, n: nat, absent: bool, n': nat, absent': bool)
    requires Leads(ts, l, from, n, absent) && Leads(ts, l, from, n', absent')
    ensures n == n' && absent == absent'
  {
    hide Enders;
  }

  lemma TagMeansOnce(t: Token, ds: seq<TagDirective>, tag: string, tag': string)
    requires TagMeans(t, ds, tag) && TagMeans(t, ds, tag')
    ensures tag == tag'
  {
    if t.value != "" && HasHandle(ds, t.value) {
      var i :| 0 <= i < |ds| && FirstFor(ds, i, t.value) && tag == ds[i].prefix + t.suffix;
      var j :| 0 <= j < |ds| && FirstFor(ds, j, t.value) && tag' == ds[j].prefix + t.suffix;
      assert i == j;
    }
  }

  lemma PropertiesOnce(ts: seq<Token>, ds: seq<TagDirective>, i: nat, n: nat, anchor: Option<string>, tag: string,
      n': nat, anchor': Option<string>, tag': string)
    requires Properties(ts, ds, i, n, anchor, tag) && Properties(ts, ds, i, n', anchor', tag')
    ensures n == n' && anchor == anchor' && tag == tag'
  {
    hide TagMeans;
    if IsTag(ts, ds, i, tag) {
      TagMeansOnce(ts[i], ds, tag, tag');
    } else if IsTag(ts, ds, i + 1, tag) && n == i + 2 {
      TagMeansOnce(ts[i + 1], ds, tag, tag');
    }
  }

  lemma NodeOnce(ts: seq<Token>, ds: seq<TagDirective>, l: Level, from: nat, e: Event, w: Window, e': Event, w': Window)
    requires NodeFits(ts, ds, l, from, e, w) && NodeFits(ts, ds, l, from, e', w')
    ensures e == e' && w == w'
  {
    hide Leads, Properties, Opened;
    LeadsOnce(ts, l, from, w.start, false, w'.start, false);
    if !Is(ts, w.start, AliasToken) {
      PropertiesOnce(ts, ds, w.start, w.content, e.anchor, e.tag, w'.content, e'.anchor, e'.tag);
    }
  }

  lemma EndOnce(ts: seq<Token>, l: Level, from: nat, e: Event, w: Window, e': Event, w': Window)
    requires EndFits(ts, l, from, e, w) && EndFits(ts, l, from, e', w')
    ensures e == e' && w == w'
  {
  }

  /** Where a node may start, a production does not end. */
  lemma StartsNoEnd(ts: seq<Token>, l: Level, from: nat, n: nat, absent: bool, e: Event, w: Window)
    requires Leads(ts, l, from, n, absent)
    ensures !EndFits(ts, l, from, e, w) && !PairFits(ts, l, from, e, w)
  {
    hide Enders;
  }

  lemma PairStays(ts: seq<Token>, l: Level, from: nat, e: Event, w: Window, e': Event, w': Window)
    requires PairFits(ts, l, from, e, w)
    ensures !EndFits(ts, l, from, e', w')
  {
  }

  lemma InsideOnce(ts: seq<Token>, ds: seq<TagDirective>, l: Level, from: nat, e: Event, w: Window, e': Event,
      w': Window)
    requires NodeFits(ts, ds, l, from, e, w) || AbsentFits(ts, l, from, e, w) || PairFits(ts, l, from, e, w)
          || EndFits(ts, l, from, e, w)
    requires NodeFits(ts, ds, l, from, e', w') || AbsentFits(ts, l, from, e', w') || PairFits(ts, l, from, e', w')
          || EndFits(ts, l, from, e', w')
    ensures e == e' && w == w'
  {
    hide Leads, Properties, ContentFits, EndFits, MarkOfAbsent;
    if NodeFits(ts, ds, l, from, e, w) {
      StartsNoEnd(ts, l, from, w.start, false, e', w');
      if NodeFits(ts, ds, l, from, e', w') {
        NodeOnce(ts, ds, l, from, e, w, e', w');
      } else {
        LeadsOnce(ts, l, from, w.start, false, w'.start, true);
      }
    } else if AbsentFits(ts, l, from, e, w) {
      StartsNoEnd(ts, l, from, w.start, true, e', w');
      LeadsOnce(ts, l, from, w.start, true, w'.start, AbsentFits(ts, l, from, e', w'));
    } else if NodeFits(ts, ds, l, from, e', w') {
      StartsNoEnd(ts, l, from, w'.start, false, e, w);
    } else if AbsentFits(ts, l, from, e', w') {
      StartsNoEnd(ts, l, from, w'.start, true, e, w);
    } else if PairFits(ts, l, from, e, w) {
      PairStays(ts, l, from, e, w, e', w');
    } else if PairFits(ts, l, from, e', w') {
      PairStays(ts, l, from, e', w', e, w);
    } else {
      EndOnce(ts, l, from, e, w, e', w');
    }
  }

  lemma PassesOnce(ts: seq<Token>, first: bool, from: nat, n: nat, n': nat)
    requires Passes(ts, first, from, n) && Passes(ts, first, from, n')
    ensures n == n'
  {
  }

  lemma DirectivesOnce(ts: seq<Token>, i: nat, n: nat, e: Event, n': nat, e': Event)
    requires DirectivesFit(ts, i, n, e) && DirectivesFit(ts, i, n', e')
    ensures n == n' && e.version == e'.version && e.tagDirectives == e'.tagDirectives
  {
    hide TagsIn;
    assert !IsDirectiveAt(ts, n) && !IsDirectiveAt(ts, n');
  }

  lemma DocumentOnce(ts: seq<Token>, first: bool, from: nat, e: Event, w: Window, e': Event, w': Window)
    requires DocumentFits(ts, first, from, e, w) || StreamEndFits(ts, first, from, e, w)
    requires DocumentFits(ts, first, from, e', w') || StreamEndFits(ts, first, from, e', w')
    ensures e == e' && w == w'
  {
    hide DirectivesFit;
    PassesOnce(ts, first, from, w.start, w'.start);
    if DirectivesFit(ts, w.start, w.content, e) && DirectivesFit(ts, w'.start, w'.content, e') {
      DirectivesOnce(ts, w.start, w.content, e, w'.content, e');
    }
  }

  /** At one place, one event with one window is right. */
  lemma OneWay(ts: seq<Token>, p: Place, from: nat, e: Event, w: Window, e': Event, w': Window)
    requires Fits(ts, p, from, e, w) && Fits(ts, p, from, e', w')
    ensures e == e' && w == w'
  {
    hide NodeFits, AbsentFits, PairFits, EndFits, DocumentFits, StreamEndFits;
    match p
    case Between(first) => DocumentOnce(ts, first, from, e, w, e', w');
    case Within(levels, ds) => InsideOnce(ts, ds, levels[|levels| - 1], from, e, w, e', w');
    case _ =>
  }

  /** Of two readings from one place, one is a prefix of the other. */
  lemma {:induction false} ReadAlike(ts: seq<Token>, p: Place, from: nat, es: seq<Event>, ws: seq<Window>, q: Place,
      to: nat, es': seq<Event>, ws': seq<Window>, q': Place, to': nat)
    requires Reads(ts, p, from, es, ws, q, to) && Reads(ts, p, from, es', ws', q', to')
    requires Stuck(ts, q, to) && Stuck(ts, q', to')
    ensures es == es' && q == q' && to == to'
    decreases |es|
  {
    hide Fits, Next;
    if es != [] && es' != [] {
      OneWay(ts, p, from, es[0], ws[0], es'[0], ws'[0]);
      ReadAlike(ts, Next(ts, p, from, es[0], ws[0]), ws[0].end, es[1..], ws[1..], q, to, es'[1..], ws'[1..], q', to');
    }
  }

  lemma OverIsStuck(ts: seq<Token>, from: nat)
    ensures Stuck(ts, Over, from)
  {
  }

  /** A token sequence has one reading: the events and where they end, or that they do not. */
  lemma OneReading(ts: seq<Token>, es: seq<Event>, next: Option<nat>, es': seq<Event>, next': Option<nat>)
    requires Reading(ts, es, next) && Reading(ts, es', next')
    ensures es == es' && next == next'
  {
    hide Reads, Stuck;
    var ws, p, to :| Reads(ts, Before, 0, es, ws, p, to)
      && if next.Some? then p == Over && to == next.value else p != Over && Stuck(ts, p, to);
    var ws', p', to' :| Reads(ts, Before, 0, es', ws', p', to')
      && if next'.Some? then p' == Over && to' == next'.value else p' != Over && Stuck(ts, p', to');
    OverIsStuck(ts, to);
    OverIsStuck(ts, to');
    ReadAlike(ts, Before, 0, es, ws, p, to, es', ws', p', to');
  }

  /** Without a tag, a scalar is implicit exactly as its style says. */
  predicate Untagged(e: Event) {
    e.kind == Scalar && e.tag == "" ==>
      (e.implicit <==> e.style == Plain) && (e.quotedImplicit <==> e.style != Plain)
  }

  lemma {:induction false} FlagsRead(ts: seq<Token>, p: Place, from: nat, es: seq<Event>, ws: seq<Window>, q: Place,
      to: nat)
    requires Reads(ts, p, from, es, ws, q, to)
    ensures forall e :: e in es ==> Untagged(e)
    decreases |es|
  {
    hide Leads, Properties, Opened, Next, DirectivesFit, Passes;
    if es != [] {
      FlagsRead(ts, Next(ts, p, from, es[0], ws[0]), ws[0].end, es[1..], ws[1..], q, to);
      assert Untagged(es[0]);
    }
  }

  lemma FlagsAre(ts: seq<Token>, es: seq<Event>, next: Option<nat>)
    requires Reading(ts, es, next)
    ensures forall e :: e in es ==> Untagged(e)
  {
    hide Reads, Stuck, Untagged;
    var ws, p, to :| Reads(ts, Before, 0, es, ws, p, to)
      && if next.Some? then p == Over && to == next.value else p != Over && Stuck(ts, p, to);
    FlagsRead(ts, Before, 0, es, ws, p, to);
  }
}
