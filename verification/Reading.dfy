/** The recursive descent of Descent.dfy gives the one reading of the tokens that Windows.dfy
  * defines. */
module YamlReading {
  import opened Options
  import opened YamlEvents
  import opened YamlTokens
  import opened YamlDescent
  import opened YamlWindows

  // ----- Readings of productions -------------------------------------------------------

  /** The events of `r` are right from `p` on; they lead to `q`, or to where no event is right. */
  ghost predicate Tells(ts: seq<Token>, p: Place, from: nat, r: Result, q: Place) {
    exists ws, p', to ::
      Reads(ts, p, from, r.events, ws, p', to) &&
          if r.next.Some? then p' == q && to == r.next.value else p' != Over && Stuck(ts, p', to)
  }

  lemma {:induction false} ReadsOn(ts: seq<Token>, p: Place, from: nat, es: seq<Event>, ws: seq<Window>, q: Place,
      to: nat, es': seq<Event>, ws': seq<Window>, q': Place, to': nat)
    requires Reads(ts, p, from, es, ws, q, to) && Reads(ts, q, to, es', ws', q', to')
    ensures Reads(ts, p, from, es + es', ws + ws', q', to')
    decreases |es|
  {
    hide Fits, Next;
    if es == [] {
      assert es + es' == es' && ws + ws' == ws';
    } else {
      ReadsOn(ts, Next(ts, p, from, es[0], ws[0]), ws[0].end, es[1..], ws[1..], q, to, es', ws', q', to');
      assert (es + es')[1..] == es[1..] + es' && (ws + ws')[1..] == ws[1..] + ws';
    }
  }

  /** After the events of `r` come those of `r'`. */
  lemma TellsOn(ts: seq<Token>, p: Place, from: nat, r: Result, q: Place, r': Result, q': Place)
    requires r.next.Some? && Tells(ts, p, from, r, q) && Tells(ts, q, r.next.value, r', q')
    ensures Tells(ts, p, from, Prepend(r.events, r'), q')
  {
    hide Reads, Stuck;
    var ws, p1, to :| Reads(ts, p, from, r.events, ws, p1, to) && p1 == q && to == r.next.value;
    var ws', p2, to' :| Reads(ts, q, r.next.value, r'.events, ws', p2, to') &&
      if r'.next.Some? then p2 == q' && to' == r'.next.value else p2 != Over && Stuck(ts, p2, to');
    ReadsOn(ts, p, from, r.events, ws, q, to, r'.events, ws', p2, to');
  }

  lemma FailedThere(ts: seq<Token>, p: Place, from: nat, r: Result, q: Place, q': Place)
    requires r.next == None && Tells(ts, p, from, r, q)
    ensures Tells(ts, p, from, r, q')
  {
    hide Reads, Stuck;
  }

  /** One event, and what comes after it. */
  lemma TellsFirst(ts: seq<Token>, p: Place, from: nat, e: Event, w: Window, r: Result, q: Place)
    requires Fits(ts, p, from, e, w) && Tells(ts, Next(ts, p, from, e, w), w.end, r, q)
    ensures Tells(ts, p, from, Emit(e, r), q)
  {
    hide Fits, Next, Stuck;
    var ws, p', to :| Reads(ts, Next(ts, p, from, e, w), w.end, r.events, ws, p', to) &&
      if r.next.Some? then p' == q && to == r.next.value else p' != Over && Stuck(ts, p', to);
    assert ([e] + r.events)[1..] == r.events && ([w] + ws)[1..] == ws;
    assert Reads(ts, p, from, [e] + r.events, [w] + ws, p', to);
  }

  lemma TellsOne(ts: seq<Token>, p: Place, from: nat, e: Event, w: Window, next: nat)
    requires Fits(ts, p, from, e, w) && next == w.end
    ensures Tells(ts, p, from, Single(e, next), Next(ts, p, from, e, w))
  {
    hide Fits, Next;
    assert Reads(ts, p, from, [e], [w], Next(ts, p, from, e, w), w.end);
  }

  lemma TellsNothing(ts: seq<Token>, p: Place, from: nat, q: Place)
    requires Stuck(ts, p, from) && p != Over
    ensures Tells(ts, p, from, FAIL, q)
  {
    hide Stuck;
    assert Reads(ts, p, from, [], [], p, from);
  }

  // ----- Places ------------------------------------------------------------------------

  /** Directly inside `l`, with `base` around it. */
  function In(base: seq<Level>, l: Level, ds: seq<TagDirective>): Place {
    Within(base + [l], ds)
  }

  lemma Top(ts: seq<Token>, base: seq<Level>, l: Level, from: nat, start: nat)
    ensures (base + [l])[|base|] == l && (base + [l])[..|base|] == base
    ensures WithChild(ts, base + [l], from, start)
         == base + [Filled(l, start > from && Is(ts, start - 1, KeyToken))]
  {
  }

  /** No event is right where no node starts and the production does not end. */
  lemma NoneFits(ts: seq<Token>, base: seq<Level>, l: Level, ds: seq<TagDirective>, from: nat)
    requires forall n, absent :: !Leads(ts, l, from, n, absent)
    requires forall e, w :: !PairFits(ts, l, from, e, w) && !EndFits(ts, l, from, e, w)
    ensures Stuck(ts, In(base, l, ds), from)
  {
    hide Leads, PairFits, EndFits, Properties, ContentFits;
    Top(ts, base, l, from, from);
  }

  /** The level behind a node that starts at `start`. */
  function Behind(ts: seq<Token>, l: Level, from: nat, start: nat): Level {
    Filled(l, start > from && Is(ts, start - 1, KeyToken))
  }

  /** A node may be a block collection, or a sequence that is not indented. */
  predicate Mode(l: Level, block: bool, indentless: bool) {
    && (block <==> l.DocumentLevel? || l.form == BlockForm || l.form == IndentlessForm)
    && (indentless <==> l.MappingLevel? && l.form == BlockForm)
  }

  /** An absent node. */
  lemma AbsentTells(ts: seq<Token>, base: seq<Level>, l: Level, ds: seq<TagDirective>, from: nat, n: nat, e: Event,
      r: Result, q: Place)
    requires Leads(ts, l, from, n, true) && e == EmptyScalar(MarkOfAbsent(ts, l, from, n))
    requires Tells(ts, In(base, Behind(ts, l, from, n), ds), n, r, q)
    ensures Tells(ts, In(base, l, ds), from, Emit(e, r), q)
  {
    hide Leads, Tells, MarkOfAbsent, Filled, NodeFits, PairFits, EndFits;
    var w := Window(n, n, n);
    Top(ts, base, l, from, n);
    assert AbsentFits(ts, l, from, e, w) && n <= |ts| && from <= n by {
      LeadsOn(ts, l, from, n, true);
    }
    TellsFirst(ts, In(base, l, ds), from, e, w, r, q);
  }

  lemma LeadsOn(ts: seq<Token>, l: Level, from: nat, n: nat, absent: bool)
    requires Leads(ts, l, from, n, absent)
    ensures from <= n <= |ts| && (!absent ==> n < |ts|)
  {
  }

  /** The end of a collection. */
  lemma EndTells(ts: seq<Token>, base: seq<Level>, l: Level, ds: seq<TagDirective>, from: nat, e: Event, w: Window,
      next: nat)
    requires EndFits(ts, l, from, e, w) && !l.DocumentLevel? && base != [] && next == w.end
    ensures Tells(ts, In(base, l, ds), from, Single(e, next), Within(base, ds))
  {
    hide NodeFits, PairFits, AbsentFits, Tells, WithChild, Inner;
    Top(ts, base, l, from, from);
    assert from <= w.start <= w.content <= w.end <= |ts|;
    assert Fits(ts, In(base, l, ds), from, e, w);
    assert Next(ts, In(base, l, ds), from, e, w) == Within(base, ds);
    TellsOne(ts, In(base, l, ds), from, e, w, next);
  }

  // ----- Properties and content --------------------------------------------------------

  lemma {:induction false} FirstPrefix(ds: seq<TagDirective>, handle: string)
    ensures PrefixOf(ds, handle) == None <==> !HasHandle(ds, handle)
    ensures PrefixOf(ds, handle) != None ==>
      exists i :: 0 <= i < |ds| && FirstFor(ds, i, handle) && PrefixOf(ds, handle) == Some(ds[i].prefix)
  {
    if ds != [] {
      FirstPrefix(ds[1..], handle);
      if ds[0].handle == handle {
        assert FirstFor(ds, 0, handle);
      } else {
        if HasHandle(ds[1..], handle) {
          var i :| 0 <= i < |ds[1..]| && FirstFor(ds[1..], i, handle)
            && PrefixOf(ds[1..], handle) == Some(ds[1..][i].prefix);
          assert FirstFor(ds, i + 1, handle);
        } else {
          assert forall i :: 0 < i < |ds| ==> ds[i] == ds[1..][i - 1];
        }
      }
    }
  }

  lemma {:induction false} PrefixBehind(ds: seq<TagDirective>, more: seq<TagDirective>, handle: string)
    ensures PrefixOf(ds + more, handle) ==
      if PrefixOf(ds, handle) != None then PrefixOf(ds, handle) else PrefixOf(more, handle)
  {
    if ds == [] {
      assert ds + more == more;
    } else {
      PrefixBehind(ds[1..], more, handle);
      assert (ds + more)[1..] == ds[1..] + more;
    }
  }

  lemma DefaultPrefix(ds: seq<TagDirective>, handle: string)
    ensures PrefixOf(WithDefaults(ds), handle) ==
      if PrefixOf(ds, handle) != None then PrefixOf(ds, handle)
      else if handle == "!" then Some("!")
      else if handle == "!!" then Some("tag:yaml.org,2002:")
      else None
  {
    var one := AddDefault(ds, DEFAULT_DIRECTIVES[0]);
    FirstPrefix(ds, "!");
    FirstPrefix(one, "!!");
    PrefixBehind(ds, [DEFAULT_DIRECTIVES[0]], handle);
    PrefixBehind(one, [DEFAULT_DIRECTIVES[1]], handle);
    FirstPrefix(ds, "!!");
    PrefixBehind(ds, [DEFAULT_DIRECTIVES[0]], "!!");
  }

  /** The tag that the descent resolves is the one that the token means. */
  lemma TagIs(t: Token, ds: seq<TagDirective>, tag: string)
    ensures TagMeans(t, ds, tag) <==> Resolved(Some(t), WithDefaults(ds)) == Some(tag)
  {
    hide WithDefaults, PrefixOf;
    FirstPrefix(ds, t.value);
    DefaultPrefix(ds, t.value);
  }

  lemma PropertiesFit(ts: seq<Token>, ds: seq<TagDirective>, pos: nat, n: nat, anchor: Option<string>, tag: string)
    requires pos < |ts|
    ensures var end := PropertiesEnd(ts, pos);
      Properties(ts, ds, pos, n, anchor, tag) <==>
        && n == end < |ts| && anchor == AnchorIn(ts[pos..end])
        && Resolved(TagIn(ts[pos..end]), WithDefaults(ds)) == Some(tag)
  {
    hide WithDefaults, TagMeans, AnchorIn, TagIn;
    var end := PropertiesEnd(ts, pos);
    PropertiesAre(ts, pos, end);
    if end > pos {
      TagIs(ts[pos], ds, tag);
    }
    if end > pos + 1 {
      TagIs(ts[pos + 1], ds, tag);
    }
  }

  lemma NodeStuck(ts: seq<Token>, base: seq<Level>, l: Level, ds: seq<TagDirective>, from: nat, pos: nat)
    requires Leads(ts, l, from, pos, false)
    requires forall e: Event, w: Window :: w.start == pos ==> !NodeFits(ts, ds, l, from, e, w)
    ensures Stuck(ts, In(base, l, ds), from)
  {
    hide Leads, PairFits, EndFits, Properties, ContentFits;
    Top(ts, base, l, from, from);
    forall e, w
      ensures !Fits(ts, In(base, l, ds), from, e, w)
    {
      StartsNoEnd(ts, l, from, pos, false, e, w);
      if NodeFits(ts, ds, l, from, e, w) {
        LeadsOnce(ts, l, from, pos, false, w.start, false);
      } else if AbsentFits(ts, l, from, e, w) {
        LeadsOnce(ts, l, from, pos, false, w.start, true);
      }
    }
  }

  lemma AliasTells(ts: seq<Token>, base: seq<Level>, l: Level, ds: seq<TagDirective>, from: nat, pos: nat)
    requires Leads(ts, l, from, pos, false) && Is(ts, pos, AliasToken)
    ensures Tells(ts, In(base, l, ds), from,
      Single(MakeEvent(Alias, ts[pos].start, ts[pos].end).(anchor := Some(ts[pos].value)), pos + 1),
      In(base, Behind(ts, l, from, pos), ds))
  {
    hide Leads, Tells, Filled, AbsentFits, PairFits, EndFits;
    var e, w := MakeEvent(Alias, ts[pos].start, ts[pos].end).(anchor := Some(ts[pos].value)), Window(pos, pos, pos + 1);
    LeadsOn(ts, l, from, pos, false);
    Top(ts, base, l, from, pos);
    TellsOne(ts, In(base, l, ds), from, e, w, pos + 1);
  }

  /** A node of one event. */
  lemma ScalarTells(ts: seq<Token>, base: seq<Level>, l: Level, ds: seq<TagDirective>, from: nat, e: Event, w: Window,
      next: nat)
    requires NodeFits(ts, ds, l, from, e, w) && e.kind == Scalar && next == w.end
    ensures Tells(ts, In(base, l, ds), from, Single(e, next), In(base, Behind(ts, l, from, w.start), ds))
  {
    hide Leads, Tells, Filled, AbsentFits, PairFits, EndFits, Properties, Opened;
    LeadsOn(ts, l, from, w.start, false);
    Top(ts, base, l, from, w.start);
    assert Fits(ts, In(base, l, ds), from, e, w);
    TellsOne(ts, In(base, l, ds), from, e, w, next);
  }

  /** The event that starts the collection `inner` with the token at `n`. */
  function StartEvent(ts: seq<Token>, inner: Level, pos: nat, n: nat, anchor: Option<string>, tag: string): Event
    requires pos <= n < |ts| && !inner.DocumentLevel?
  {
    Event(if inner.SequenceLevel? then SequenceStart else MappingStart, ts[pos].start, ts[n].end, anchor, tag, "",
          tag == "", false, StyleOf(inner), None, [])
  }

  /** The start of a collection, and what is in it. */
  lemma StartTells(ts: seq<Token>, base: seq<Level>, l: Level, ds: seq<TagDirective>, from: nat, pos: nat, n: nat,
      anchor: Option<string>, tag: string, inner: Level, end: nat, r: Result)
    requires Leads(ts, l, from, pos, false) && !Is(ts, pos, AliasToken) && pos <= n < |ts|
    requires Properties(ts, ds, pos, n, anchor, tag) && Opened(l, ts[n].typ) == Some(inner)
    requires end == if ts[n].typ == BlockEntryToken then n else n + 1
    requires var around := base + [Behind(ts, l, from, pos)];
      Tells(ts, In(around, inner, ds), end, r, Within(around, ds))
    ensures !inner.DocumentLevel?
    ensures Tells(ts, In(base, l, ds), from, Emit(StartEvent(ts, inner, pos, n, anchor, tag), r),
      In(base, Behind(ts, l, from, pos), ds))
  {
    hide Leads, Tells, Filled, AbsentFits, PairFits, EndFits, Properties;
    var e, w := StartEvent(ts, inner, pos, n, anchor, tag), Window(pos, n, end);
    LeadsOn(ts, l, from, pos, false);
    Top(ts, base, l, from, pos);
    assert NodeFits(ts, ds, l, from, e, w);
    TellsFirst(ts, In(base, l, ds), from, e, w, r, In(base, Behind(ts, l, from, pos), ds));
  }

  lemma ContentStuck(ts: seq<Token>, base: seq<Level>, l: Level, ds: seq<TagDirective>, from: nat, pos: nat, n: nat,
      anchor: Option<string>, tag: string)
    requires Leads(ts, l, from, pos, false) && !Is(ts, pos, AliasToken) && Properties(ts, ds, pos, n, anchor, tag)
    requires ts[n].typ != ScalarToken && Opened(l, ts[n].typ) == None
    requires (anchor == None || anchor.value == "") && tag == ""
    ensures Stuck(ts, In(base, l, ds), from)
  {
    hide Leads, Properties, Opened, Stuck;
    forall e: Event, w: Window | w.start == pos
      ensures !NodeFits(ts, ds, l, from, e, w)
    {
      if Properties(ts, ds, pos, w.content, e.anchor, e.tag) {
        PropertiesOnce(ts, ds, pos, n, anchor, tag, w.content, e.anchor, e.tag);
      }
    }
    NodeStuck(ts, base, l, ds, from, pos);
  }

  /** A node behind the tokens that lead to it. */
  lemma NodeTells(ts: seq<Token>, base: seq<Level>, l: Level, ds: seq<TagDirective>, from: nat, pos: nat, block: bool,
      indentless: bool)
    requires Leads(ts, l, from, pos, false) && Mode(l, block, indentless)
    ensures Tells(ts, In(base, l, ds), from, Node(ts, WithDefaults(ds), pos, block, indentless),
      In(base, Behind(ts, l, from, pos), ds))
    decreases |ts| - pos, 3
  {
    hide Leads, Tells, Stuck, Content, WithDefaults, Resolved, AnchorIn, TagIn, PropertiesEnd, Filled, Properties,
      ContentFits;
    LeadsOn(ts, l, from, pos, false);
    var q := In(base, Behind(ts, l, from, pos), ds);
    if ts[pos].typ == AliasToken {
      AliasTells(ts, base, l, ds, from, pos);
    } else {
      var n := PropertiesEnd(ts, pos);
      var tag := Resolved(TagIn(ts[pos..n]), WithDefaults(ds));
      if n >= |ts| || tag == None {
        forall e: Event, w: Window | w.start == pos
          ensures !NodeFits(ts, ds, l, from, e, w)
        {
          PropertiesFit(ts, ds, pos, w.content, e.anchor, e.tag);
        }
        NodeStuck(ts, base, l, ds, from, pos);
        TellsNothing(ts, In(base, l, ds), from, q);
      } else {
        PropertiesFit(ts, ds, pos, n, AnchorIn(ts[pos..n]), tag.value);
        ContentTells(ts, base, l, ds, from, pos, n, block, indentless, AnchorIn(ts[pos..n]), tag.value);
      }
    }
  }

  lemma PropertiesIn(ts: seq<Token>, ds: seq<TagDirective>, pos: nat, n: nat, anchor: Option<string>, tag: string)
    requires Properties(ts, ds, pos, n, anchor, tag)
    ensures pos <= n < |ts| && (n == pos ==> anchor == None && tag == "")
  {
  }

  lemma ContentTells(ts: seq<Token>, base: seq<Level>, l: Level, ds: seq<TagDirective>, from: nat, pos: nat, n: nat,
      block: bool, indentless: bool, anchor: Option<string>, tag: string)
    requires Leads(ts, l, from, pos, false) && Mode(l, block, indentless) && !Is(ts, pos, AliasToken)
    requires Properties(ts, ds, pos, n, anchor, tag)
    ensures Tells(ts, In(base, l, ds), from,
      Content(ts, WithDefaults(ds), n, block, indentless, anchor, tag, ts[pos].start,
        if n == pos then ts[pos].start else ts[n - 1].end),
      In(base, Behind(ts, l, from, pos), ds))
    decreases |ts| - n, 2
  {
    hide Leads, Tells, Stuck, WithDefaults, Filled, Properties, BlockItems, BlockKeys, Indentless, FlowSequence,
      FlowMapping, ContentFits, Opened;
    PropertiesIn(ts, ds, pos, n, anchor, tag);
    OpenedAre(l, ts[n].typ, block, indentless);
    var t, ds' := ts[n], WithDefaults(ds);
    var around := base + [Behind(ts, l, from, pos)];
    if indentless && t.typ == BlockEntryToken {
      var inner := SequenceLevel(IndentlessForm, true);
      IndentlessTells(ts, around, inner, ds, n);
      StartTells(ts, base, l, ds, from, pos, n, anchor, tag, inner, n, Indentless(ts, ds', n));
    } else if t.typ == FlowSequenceStartToken {
      FlowSequenceTells(ts, around, ds, n);
      StartTells(ts, base, l, ds, from, pos, n, anchor, tag, SequenceLevel(FlowForm, true), n + 1,
          FlowSequence(ts, ds', n));
    } else if t.typ == FlowMappingStartToken {
      FlowMappingTells(ts, around, ds, n);
      StartTells(ts, base, l, ds, from, pos, n, anchor, tag, MappingLevel(FlowForm, FirstKey), n + 1,
          FlowMapping(ts, ds', n));
    } else if block && t.typ == BlockSequenceStartToken {
      var inner := SequenceLevel(BlockForm, true);
      BlockItemsTells(ts, around, inner, ds, n + 1);
      StartTells(ts, base, l, ds, from, pos, n, anchor, tag, inner, n + 1, BlockItems(ts, ds', n + 1));
    } else if block && t.typ == BlockMappingStartToken {
      var inner := MappingLevel(BlockForm, FirstKey);
      BlockKeysTells(ts, around, inner, ds, n + 1);
      StartTells(ts, base, l, ds, from, pos, n, anchor, tag, inner, n + 1, BlockKeys(ts, ds', n + 1));
    } else {
      OneEventTells(ts, base, l, ds, from, pos, n, block, indentless, anchor, tag);
    }
  }

  lemma OpenedAre(l: Level, typ: TokenType, block: bool, indentless: bool)
    requires Mode(l, block, indentless)
    ensures Opened(l, typ) ==
      if indentless && typ == BlockEntryToken then Some(SequenceLevel(IndentlessForm, true))
      else if typ == FlowSequenceStartToken then Some(SequenceLevel(FlowForm, true))
      else if typ == FlowMappingStartToken then Some(MappingLevel(FlowForm, FirstKey))
      else if block && typ == BlockSequenceStartToken then Some(SequenceLevel(BlockForm, true))
      else if block && typ == BlockMappingStartToken then Some(MappingLevel(BlockForm, FirstKey))
      else None
  {
  }

  /** A scalar, or properties alone. */
  lemma OneEventTells(ts: seq<Token>, base: seq<Level>, l: Level, ds: seq<TagDirective>, from: nat, pos: nat, n: nat,
      block: bool, indentless: bool, anchor: Option<string>, tag: string)
    requires Leads(ts, l, from, pos, false) && !Is(ts, pos, AliasToken) && pos <= n < |ts|
    requires Properties(ts, ds, pos, n, anchor, tag) && Opened(l, ts[n].typ) == None
    requires !(indentless && ts[n].typ == BlockEntryToken) && ts[n].typ != FlowSequenceStartToken
    requires ts[n].typ != FlowMappingStartToken && !(block && ts[n].typ == BlockSequenceStartToken)
    requires !(block && ts[n].typ == BlockMappingStartToken)
    ensures Tells(ts, In(base, l, ds), from,
      Content(ts, WithDefaults(ds), n, block, indentless, anchor, tag, ts[pos].start,
        if n == pos then ts[pos].start else ts[n - 1].end),
      In(base, Behind(ts, l, from, pos), ds))
  {
    hide Leads, Tells, Stuck, WithDefaults, Filled, Properties, Opened;
    PropertiesIn(ts, ds, pos, n, anchor, tag);
    var t := ts[n];
    var e := MakeEvent(SequenceStart, ts[pos].start, t.end).(anchor := anchor, tag := tag, implicit := tag == "");
    if t.typ == ScalarToken {
      ScalarTells(ts, base, l, ds, from, ScalarEvent(e, t), Window(pos, n, n + 1), n + 1);
    } else if (anchor != None && anchor.value != "") || tag != "" {
      ScalarTells(ts, base, l, ds, from, e.(kind := Scalar, end := ts[n - 1].end, style := Plain), Window(pos, n, n),
        n);
    } else {
      ContentStuck(ts, base, l, ds, from, pos, n, anchor, tag);
      TellsNothing(ts, In(base, l, ds), from, In(base, Behind(ts, l, from, pos), ds));
    }
  }

  // ----- Block collections -------------------------------------------------------------

  /** After a node comes the rest of the collection around it. */
  lemma NodeAnd(ts: seq<Token>, base: seq<Level>, l: Level, ds: seq<TagDirective>, from: nat, node: Result, l': Level,
      s: State)
    requires Tells(ts, In(base, l, ds), from, node, In(base, l', ds))
    requires From(node, 0, ts)
    requires node.next.Some? ==>
      Tells(ts, In(base, l', ds), node.next.value, Meaning(ts, WithDefaults(ds), s, node.next.value), Within(base, ds))
    ensures Tells(ts, In(base, l, ds), from, Then(ts, WithDefaults(ds), node, s), Within(base, ds))
  {
    hide Tells, Meaning, WithDefaults;
    if node.next.Some? {
      TellsOn(ts, In(base, l, ds), from, node, In(base, l', ds),
          Meaning(ts, WithDefaults(ds), s, node.next.value), Within(base, ds));
    } else {
      FailedThere(ts, In(base, l, ds), from, node, In(base, l', ds), Within(base, ds));
    }
  }

  lemma BlockItemsTells(ts: seq<Token>, base: seq<Level>, l: Level, ds: seq<TagDirective>, pos: nat)
    requires l.SequenceLevel? && l.form == BlockForm && base != []
    ensures Tells(ts, In(base, l, ds), pos, BlockItems(ts, WithDefaults(ds), pos), Within(base, ds))
    decreases |ts| - pos, 4
  {
    hide Tells, Stuck, WithDefaults, Node, Then;
    var ds' := WithDefaults(ds);
    var l' := SequenceLevel(BlockForm, false);
    if Is(ts, pos, BlockEntryToken) && pos + 1 < |ts| {
      if ts[pos + 1].typ != BlockEntryToken && ts[pos + 1].typ != BlockEndToken {
        var node := Node(ts, ds', pos + 1, true, false);
        NodeTells(ts, base, l, ds, pos, pos + 1, true, false);
        if node.next.Some? {
          BlockItemsTells(ts, base, l', ds, node.next.value);
        }
        NodeAnd(ts, base, l, ds, pos, node, l', BlockSequenceEntryState);
      } else {
        BlockItemsTells(ts, base, l', ds, pos + 1);
        AbsentTells(ts, base, l, ds, pos, pos + 1, EmptyScalar(ts[pos].end), BlockItems(ts, ds', pos + 1),
            Within(base, ds));
      }
    } else if Is(ts, pos, BlockEndToken) {
      EndTells(ts, base, l, ds, pos, MakeEvent(SequenceEnd, ts[pos].start, ts[pos].end), Window(pos, pos, pos + 1),
          pos + 1);
    } else {
      NoneFits(ts, base, l, ds, pos);
      TellsNothing(ts, In(base, l, ds), pos, Within(base, ds));
    }
  }

  lemma IndentlessTells(ts: seq<Token>, base: seq<Level>, l: Level, ds: seq<TagDirective>, pos: nat)
    requires l.SequenceLevel? && l.form == IndentlessForm && base != []
    ensures Tells(ts, In(base, l, ds), pos, Indentless(ts, WithDefaults(ds), pos), Within(base, ds))
    decreases |ts| - pos, 1
  {
    hide Tells, Stuck, WithDefaults, Node, Then;
    var ds' := WithDefaults(ds);
    var l' := SequenceLevel(IndentlessForm, false);
    if Is(ts, pos, BlockEntryToken) && pos + 1 < |ts| {
      if ts[pos + 1].typ != BlockEntryToken && ts[pos + 1].typ != KeyToken
         && ts[pos + 1].typ != ValueToken && ts[pos + 1].typ != BlockEndToken {
        var node := Node(ts, ds', pos + 1, true, false);
        NodeTells(ts, base, l, ds, pos, pos + 1, true, false);
        if node.next.Some? {
          IndentlessTells(ts, base, l', ds, node.next.value);
        }
        NodeAnd(ts, base, l, ds, pos, node, l', IndentlessSequenceEntryState);
      } else {
        IndentlessTells(ts, base, l', ds, pos + 1);
        AbsentTells(ts, base, l, ds, pos, pos + 1, EmptyScalar(ts[pos].end), Indentless(ts, ds', pos + 1),
            Within(base, ds));
      }
    } else if pos < |ts| && ts[pos].typ != BlockEntryToken {
      EndTells(ts, base, l, ds, pos, MakeEvent(SequenceEnd, ts[pos].start, ts[pos].start), Window(pos, pos, pos), pos);
    } else {
      NoneFits(ts, base, l, ds, pos);
      TellsNothing(ts, In(base, l, ds), pos, Within(base, ds));
    }
  }

  lemma BlockKeysTells(ts: seq<Token>, base: seq<Level>, l: Level, ds: seq<TagDirective>, pos: nat)
    requires l.MappingLevel? && l.form == BlockForm && (l.part == FirstKey || l.part == NextKey) && base != []
    ensures Tells(ts, In(base, l, ds), pos, BlockKeys(ts, WithDefaults(ds), pos), Within(base, ds))
    decreases |ts| - pos, 4
  {
    hide Tells, Stuck, WithDefaults, Node, Then, BlockValue;
    var ds' := WithDefaults(ds);
    var l' := MappingLevel(BlockForm, Value);
    if Is(ts, pos, KeyToken) && pos + 1 < |ts| {
      if ts[pos + 1].typ != KeyToken && ts[pos + 1].typ != ValueToken && ts[pos + 1].typ != BlockEndToken {
        var node := Node(ts, ds', pos + 1, true, true);
        NodeTells(ts, base, l, ds, pos, pos + 1, true, true);
        if node.next.Some? {
          BlockValueTells(ts, base, ds, node.next.value);
        }
        NodeAnd(ts, base, l, ds, pos, node, l', BlockMappingValueState);
      } else {
        BlockValueTells(ts, base, ds, pos + 1);
        AbsentTells(ts, base, l, ds, pos, pos + 1, EmptyScalar(ts[pos].end), BlockValue(ts, ds', pos + 1),
            Within(base, ds));
      }
    } else if Is(ts, pos, BlockEndToken) {
      EndTells(ts, base, l, ds, pos, MakeEvent(MappingEnd, ts[pos].start, ts[pos].end), Window(pos, pos, pos + 1),
          pos + 1);
    } else {
      NoneFits(ts, base, l, ds, pos);
      TellsNothing(ts, In(base, l, ds), pos, Within(base, ds));
    }
  }

  lemma BlockValueTells(ts: seq<Token>, base: seq<Level>, ds: seq<TagDirective>, pos: nat)
    requires base != []
    ensures Tells(ts, In(base, MappingLevel(BlockForm, Value), ds), pos, BlockValue(ts, WithDefaults(ds), pos),
      Within(base, ds))
    decreases |ts| - pos, 5
  {
    hide Tells, Stuck, WithDefaults, Node, Then, BlockKeys;
    var ds' := WithDefaults(ds);
    var l, l' := MappingLevel(BlockForm, Value), MappingLevel(BlockForm, NextKey);
    if Is(ts, pos, ValueToken) && pos + 1 < |ts| {
      if ts[pos + 1].typ != KeyToken && ts[pos + 1].typ != ValueToken && ts[pos + 1].typ != BlockEndToken {
        var node := Node(ts, ds', pos + 1, true, true);
        NodeTells(ts, base, l, ds, pos, pos + 1, true, true);
        if node.next.Some? {
          BlockKeysTells(ts, base, l', ds, node.next.value);
        }
        NodeAnd(ts, base, l, ds, pos, node, l', BlockMappingKeyState);
      } else {
        BlockKeysTells(ts, base, l', ds, pos + 1);
        AbsentTells(ts, base, l, ds, pos, pos + 1, EmptyScalar(ts[pos].end), BlockKeys(ts, ds', pos + 1),
            Within(base, ds));
      }
    } else if pos < |ts| && ts[pos].typ != ValueToken {
      BlockKeysTells(ts, base, l', ds, pos);
      AbsentTells(ts, base, l, ds, pos, pos, EmptyScalar(ts[pos].start), BlockKeys(ts, ds', pos), Within(base, ds));
    } else {
      NoneFits(ts, base, l, ds, pos);
      TellsNothing(ts, In(base, l, ds), pos, Within(base, ds));
    }
  }

  // ----- Flow collections --------------------------------------------------------------

  lemma FlowSequenceTells(ts: seq<Token>, base: seq<Level>, ds: seq<TagDirective>, pos: nat)
    requires base != []
    ensures Tells(ts, In(base, SequenceLevel(FlowForm, true), ds), pos + 1, FlowSequence(ts, WithDefaults(ds), pos),
      Within(base, ds))
    decreases |ts| - pos, 1
  {
    hide Tells, Stuck, WithDefaults, FlowItem;
    if pos + 1 < |ts| {
      FlowItemTells(ts, base, true, ds, pos + 1, pos + 1);
    } else {
      NoneFits(ts, base, SequenceLevel(FlowForm, true), ds, pos + 1);
      TellsNothing(ts, In(base, SequenceLevel(FlowForm, true), ds), pos + 1, Within(base, ds));
    }
  }

  lemma FlowItemsTells(ts: seq<Token>, base: seq<Level>, ds: seq<TagDirective>, pos: nat)
    requires base != []
    ensures Tells(ts, In(base, SequenceLevel(FlowForm, false), ds), pos, FlowItems(ts, WithDefaults(ds), pos),
      Within(base, ds))
    decreases |ts| - pos, 6
  {
    hide Tells, Stuck, WithDefaults, FlowItem;
    var next := Separated(ts, pos, FlowSequenceEndToken);
    if next.Some? {
      FlowItemTells(ts, base, false, ds, pos, next.value);
    } else {
      NoneFits(ts, base, SequenceLevel(FlowForm, false), ds, pos);
      TellsNothing(ts, In(base, SequenceLevel(FlowForm, false), ds), pos, Within(base, ds));
    }
  }

  lemma FlowItemTells(ts: seq<Token>, base: seq<Level>, first: bool, ds: seq<TagDirective>, from: nat, pos: nat)
    requires base != [] && pos < |ts|
    requires Parted(ts, first, from, pos) || (from == pos && Is(ts, pos, FlowSequenceEndToken))
    ensures Tells(ts, In(base, SequenceLevel(FlowForm, first), ds), from, FlowItem(ts, WithDefaults(ds), pos),
      Within(base, ds))
    decreases |ts| - pos, 5
  {
    hide Tells, Stuck, WithDefaults, Node, Then, PairKey, FlowItems;
    var ds' := WithDefaults(ds);
    var l, l' := SequenceLevel(FlowForm, first), SequenceLevel(FlowForm, false);
    var t := ts[pos];
    if t.typ == KeyToken {
      PairKeyTells(ts, base, ds, pos + 1);
      PairTells(ts, base, first, ds, from, pos, PairKey(ts, ds', pos + 1));
    } else if t.typ != FlowSequenceEndToken {
      var node := Node(ts, ds', pos, false, false);
      NodeTells(ts, base, l, ds, from, pos, false, false);
      if node.next.Some? {
        FlowItemsTells(ts, base, ds, node.next.value);
      }
      NodeAnd(ts, base, l, ds, from, node, l', FlowSequenceEntryState);
    } else {
      EndTells(ts, base, l, ds, from, MakeEvent(SequenceEnd, t.start, t.end), Window(pos, pos, pos + 1), pos + 1);
    }
  }

  /** The mapping of a single pair. */
  lemma PairTells(ts: seq<Token>, base: seq<Level>, first: bool, ds: seq<TagDirective>, from: nat, pos: nat, r: Result)
    requires Parted(ts, first, from, pos) && Is(ts, pos, KeyToken)
    requires Tells(ts, In(base + [SequenceLevel(FlowForm, false)], MappingLevel(PairForm, FirstKey), ds), pos + 1, r,
      Within(base, ds))
    ensures Tells(ts, In(base, SequenceLevel(FlowForm, first), ds), from,
      Emit(MakeEvent(MappingStart, ts[pos].start, ts[pos].end).(implicit := true, style := Flow), r), Within(base, ds))
  {
    hide Tells, NodeFits, AbsentFits, EndFits;
    var l := SequenceLevel(FlowForm, first);
    var e := MakeEvent(MappingStart, ts[pos].start, ts[pos].end).(implicit := true, style := Flow);
    var w := Window(pos, pos, pos + 1);
    Top(ts, base, l, from, pos);
    TellsFirst(ts, In(base, l, ds), from, e, w, r, Within(base, ds));
  }

  lemma PairKeyTells(ts: seq<Token>, base: seq<Level>, ds: seq<TagDirective>, pos: nat)
    requires base != []
    ensures Tells(ts, In(base + [SequenceLevel(FlowForm, false)], MappingLevel(PairForm, FirstKey), ds), pos,
      PairKey(ts, WithDefaults(ds), pos), Within(base, ds))
    decreases |ts| - pos, 9
  {
    hide Tells, Stuck, WithDefaults, Node, Then, PairValue;
    var ds' := WithDefaults(ds);
    var l, l' := MappingLevel(PairForm, FirstKey), MappingLevel(PairForm, Value);
    var around := base + [SequenceLevel(FlowForm, false)];
    if pos >= |ts| {
      NoneFits(ts, around, l, ds, pos);
      TellsNothing(ts, In(around, l, ds), pos, Within(base, ds));
    } else if ts[pos].typ != ValueToken && ts[pos].typ != FlowEntryToken && ts[pos].typ != FlowSequenceEndToken {
      var node := Node(ts, ds', pos, false, false);
      NodeTells(ts, around, l, ds, pos, pos, false, false);
      if node.next.Some? {
        PairValueTells(ts, base, ds, node.next.value);
      }
      NodeInPair(ts, base, l, ds, pos, node, l', FlowSequenceEntryMappingValueState);
    } else {
      PairValueTells(ts, base, ds, pos + 1);
      AbsentTells(ts, around, l, ds, pos, pos + 1, EmptyScalar(ts[pos].end), PairValue(ts, ds', pos + 1),
          Within(base, ds));
    }
  }

  /** `NodeAnd` inside a single pair, which is over with the sequence around it. */
  lemma NodeInPair(ts: seq<Token>, base: seq<Level>, l: Level, ds: seq<TagDirective>, from: nat, node: Result,
      l': Level, s: State)
    requires var around := base + [SequenceLevel(FlowForm, false)];
      Tells(ts, In(around, l, ds), from, node, In(around, l', ds))
    requires From(node, 0, ts)
    requires node.next.Some? ==>
      Tells(ts, In(base + [SequenceLevel(FlowForm, false)], l', ds), node.next.value,
        Meaning(ts, WithDefaults(ds), s, node.next.value), Within(base, ds))
    ensures Tells(ts, In(base + [SequenceLevel(FlowForm, false)], l, ds), from, Then(ts, WithDefaults(ds), node, s),
      Within(base, ds))
  {
    hide Tells, Meaning, WithDefaults;
    var around := base + [SequenceLevel(FlowForm, false)];
    if node.next.Some? {
      TellsOn(ts, In(around, l, ds), from, node, In(around, l', ds),
          Meaning(ts, WithDefaults(ds), s, node.next.value), Within(base, ds));
    } else {
      FailedThere(ts, In(around, l, ds), from, node, In(around, l', ds), Within(base, ds));
    }
  }

  lemma PairValueTells(ts: seq<Token>, base: seq<Level>, ds: seq<TagDirective>, pos: nat)
    requires base != []
    ensures Tells(ts, In(base + [SequenceLevel(FlowForm, false)], MappingLevel(PairForm, Value), ds), pos,
      PairValue(ts, WithDefaults(ds), pos), Within(base, ds))
    decreases |ts| - pos, 8
  {
    hide Tells, Stuck, WithDefaults, Node, Then, PairEnd;
    var ds' := WithDefaults(ds);
    var l, l' := MappingLevel(PairForm, Value), MappingLevel(PairForm, NextKey);
    var around := base + [SequenceLevel(FlowForm, false)];
    if Is(ts, pos, ValueToken) && pos + 1 < |ts| {
      if ts[pos + 1].typ != FlowEntryToken && ts[pos + 1].typ != FlowSequenceEndToken {
        var node := Node(ts, ds', pos + 1, false, false);
        NodeTells(ts, around, l, ds, pos, pos + 1, false, false);
        if node.next.Some? {
          PairEndTells(ts, base, ds, node.next.value);
        }
        NodeInPair(ts, base, l, ds, pos, node, l', FlowSequenceEntryMappingEndState);
      } else {
        PairEndTells(ts, base, ds, pos + 1);
        AbsentTells(ts, around, l, ds, pos, pos + 1, EmptyScalar(ts[pos].start), PairEnd(ts, ds', pos + 1),
            Within(base, ds));
      }
    } else if pos < |ts| && ts[pos].typ != ValueToken {
      PairEndTells(ts, base, ds, pos);
      AbsentTells(ts, around, l, ds, pos, pos, EmptyScalar(ts[pos].start), PairEnd(ts, ds', pos), Within(base, ds));
    } else {
      NoneFits(ts, around, l, ds, pos);
      TellsNothing(ts, In(around, l, ds), pos, Within(base, ds));
    }
  }

  lemma PairEndTells(ts: seq<Token>, base: seq<Level>, ds: seq<TagDirective>, pos: nat)
    requires base != []
    ensures Tells(ts, In(base + [SequenceLevel(FlowForm, false)], MappingLevel(PairForm, NextKey), ds), pos,
      PairEnd(ts, WithDefaults(ds), pos), Within(base, ds))
    decreases |ts| - pos, 7
  {
    hide Tells, Stuck, WithDefaults, FlowItems, NodeFits, AbsentFits;
    var l := MappingLevel(PairForm, NextKey);
    var around := base + [SequenceLevel(FlowForm, false)];
    if pos < |ts| {
      FlowItemsTells(ts, base, ds, pos);
      Top(ts, around, l, pos, pos);
      TellsFirst(ts, In(around, l, ds), pos, MakeEvent(MappingEnd, ts[pos].start, ts[pos].start),
          Window(pos, pos, pos), FlowItems(ts, WithDefaults(ds), pos), Within(base, ds));
    } else {
      NoneFits(ts, around, l, ds, pos);
      TellsNothing(ts, In(around, l, ds), pos, Within(base, ds));
    }
  }

  lemma FlowMappingTells(ts: seq<Token>, base: seq<Level>, ds: seq<TagDirective>, pos: nat)
    requires base != []
    ensures Tells(ts, In(base, MappingLevel(FlowForm, FirstKey), ds), pos + 1, FlowMapping(ts, WithDefaults(ds), pos),
      Within(base, ds))
    decreases |ts| - pos, 1
  {
    hide Tells, Stuck, WithDefaults, FlowPair;
    if pos + 1 < |ts| {
      FlowPairTells(ts, base, FirstKey, ds, pos + 1, pos + 1);
    } else {
      NoneFits(ts, base, MappingLevel(FlowForm, FirstKey), ds, pos + 1);
      TellsNothing(ts, In(base, MappingLevel(FlowForm, FirstKey), ds), pos + 1, Within(base, ds));
    }
  }

  lemma FlowKeysTells(ts: seq<Token>, base: seq<Level>, ds: seq<TagDirective>, pos: nat)
    requires base != []
    ensures Tells(ts, In(base, MappingLevel(FlowForm, NextKey), ds), pos, FlowKeys(ts, WithDefaults(ds), pos),
      Within(base, ds))
    decreases |ts| - pos, 6
  {
    hide Tells, Stuck, WithDefaults, FlowPair;
    var next := Separated(ts, pos, FlowMappingEndToken);
    if next.Some? {
      FlowPairTells(ts, base, NextKey, ds, pos, next.value);
    } else {
      NoneFits(ts, base, MappingLevel(FlowForm, NextKey), ds, pos);
      TellsNothing(ts, In(base, MappingLevel(FlowForm, NextKey), ds), pos, Within(base, ds));
    }
  }

  lemma FlowPairTells(ts: seq<Token>, base: seq<Level>, part: Part, ds: seq<TagDirective>, from: nat, pos: nat)
    requires base != [] && pos < |ts| && (part == FirstKey || part == NextKey)
    requires Parted(ts, part == FirstKey, from, pos) || (from == pos && Is(ts, pos, FlowMappingEndToken))
    ensures Tells(ts, In(base, MappingLevel(FlowForm, part), ds), from, FlowPair(ts, WithDefaults(ds), pos),
      Within(base, ds))
    decreases |ts| - pos, 5
  {
    hide Tells, Stuck, WithDefaults, Node, Then, FlowValue, FlowKeys;
    var ds' := WithDefaults(ds);
    var l := MappingLevel(FlowForm, part);
    var t := ts[pos];
    if t.typ == KeyToken {
      KeyTells(ts, base, part, ds, from, pos);
    } else if t.typ != FlowMappingEndToken {
      var node := Node(ts, ds', pos, false, false);
      NodeTells(ts, base, l, ds, from, pos, false, false);
      if node.next.Some? {
        FlowValueTells(ts, base, ds, node.next.value, true);
      }
      NodeAnd(ts, base, l, ds, from, node, MappingLevel(FlowForm, NoValue), FlowMappingEmptyValueState);
    } else {
      EndTells(ts, base, l, ds, from, MakeEvent(MappingEnd, t.start, t.end), Window(pos, pos, pos + 1), pos + 1);
    }
  }

  lemma KeyTells(ts: seq<Token>, base: seq<Level>, part: Part, ds: seq<TagDirective>, from: nat, pos: nat)
    requires base != [] && Is(ts, pos, KeyToken) && (part == FirstKey || part == NextKey)
    requires Parted(ts, part == FirstKey, from, pos)
    ensures Tells(ts, In(base, MappingLevel(FlowForm, part), ds), from, FlowPair(ts, WithDefaults(ds), pos),
      Within(base, ds))
    decreases |ts| - pos, 4
  {
    hide Tells, Stuck, WithDefaults, Node, Then, FlowValue, FlowKeys;
    var ds' := WithDefaults(ds);
    var l := MappingLevel(FlowForm, part);
    if pos + 1 >= |ts| {
      NoneFits(ts, base, l, ds, from);
      TellsNothing(ts, In(base, l, ds), from, Within(base, ds));
    } else if ts[pos + 1].typ != ValueToken && ts[pos + 1].typ != FlowEntryToken
              && ts[pos + 1].typ != FlowMappingEndToken {
      var node := Node(ts, ds', pos + 1, false, false);
      NodeTells(ts, base, l, ds, from, pos + 1, false, false);
      if node.next.Some? {
        FlowValueTells(ts, base, ds, node.next.value, false);
      }
      NodeAnd(ts, base, l, ds, from, node, MappingLevel(FlowForm, Value), FlowMappingValueState);
    } else {
      FlowValueTells(ts, base, ds, pos + 1, false);
      AbsentTells(ts, base, l, ds, from, pos + 1, EmptyScalar(ts[pos + 1].start), FlowValue(ts, ds', pos + 1, false),
          Within(base, ds));
    }
  }

  lemma FlowValueTells(ts: seq<Token>, base: seq<Level>, ds: seq<TagDirective>, pos: nat, empty: bool)
    requires base != []
    ensures Tells(ts, In(base, MappingLevel(FlowForm, if empty then NoValue else Value), ds), pos,
      FlowValue(ts, WithDefaults(ds), pos, empty), Within(base, ds))
    decreases |ts| - pos, 7
  {
    hide Tells, Stuck, WithDefaults, Node, Then, FlowKeys;
    var ds' := WithDefaults(ds);
    var l, l' := MappingLevel(FlowForm, if empty then NoValue else Value), MappingLevel(FlowForm, NextKey);
    if !empty && Is(ts, pos, ValueToken) && pos + 1 < |ts| {
      if ts[pos + 1].typ != FlowEntryToken && ts[pos + 1].typ != FlowMappingEndToken {
        var node := Node(ts, ds', pos + 1, false, false);
        NodeTells(ts, base, l, ds, pos, pos + 1, false, false);
        if node.next.Some? {
          FlowKeysTells(ts, base, ds, node.next.value);
        }
        NodeAnd(ts, base, l, ds, pos, node, l', FlowMappingKeyState);
      } else {
        FlowKeysTells(ts, base, ds, pos + 1);
        AbsentTells(ts, base, l, ds, pos, pos + 1, EmptyScalar(ts[pos + 1].start), FlowKeys(ts, ds', pos + 1),
            Within(base, ds));
      }
    } else if pos < |ts| && (empty || ts[pos].typ != ValueToken) {
      FlowKeysTells(ts, base, ds, pos);
      AbsentTells(ts, base, l, ds, pos, pos, EmptyScalar(ts[pos].start), FlowKeys(ts, ds', pos), Within(base, ds));
    } else {
      NoneFits(ts, base, l, ds, pos);
      TellsNothing(ts, In(base, l, ds), pos, Within(base, ds));
    }
  }

  // ----- Documents ---------------------------------------------------------------------

  lemma {:induction false} HandlesIn(ts: seq<Token>, handle: string)
    ensures HasHandle(TagsIn(ts), handle) <==>
      exists j :: 0 <= j < |ts| && ts[j].typ == TagDirectiveToken && ts[j].value == handle
  {
    if ts != [] {
      var n := |ts| - 1;
      var before, tags := TagsIn(ts[..n]), TagsIn(ts);
      HandlesIn(ts[..n], handle);
      if HasHandle(before, handle) {
        var i :| 0 <= i < |before| && before[i].handle == handle;
        assert tags[i].handle == handle;
        var j :| 0 <= j < |ts[..n]| && ts[..n][j].typ == TagDirectiveToken && ts[..n][j].value == handle;
        assert ts[j] == ts[..n][j];
      } else if ts[n].typ == TagDirectiveToken && ts[n].value == handle {
        assert tags[|before|].handle == handle;
      } else {
        assert forall j :: 0 <= j < n ==> ts[..n][j] == ts[j];
        assert forall i :: 0 <= i < |before| ==> tags[i] == before[i];
      }
    }
  }

  lemma CollectedHandles(ts: seq<Token>, i: nat, n: nat, version: Option<(int, int)>, tags: seq<TagDirective>,
      handle: string)
    requires Collected(ts, i, n, version, tags)
    ensures HasHandle(tags, handle) <==>
      exists j :: i <= j < n && ts[j].typ == TagDirectiveToken && ts[j].value == handle
  {
    HandlesIn(ts[i..n], handle);
    assert forall j :: i <= j < n ==> ts[j] == ts[i..n][j - i];
    assert forall j :: 0 <= j < n - i ==> ts[i..n][j] == ts[i + j];
  }

  lemma NoneCollected(ts: seq<Token>, i: nat)
    requires i <= |ts|
    ensures Collected(ts, i, i, None, [])
  {
    assert ts[i..i] == [];
  }

  lemma TagsMore(ts: seq<Token>, i: nat, n: nat)
    requires i <= n < |ts|
    ensures TagsIn(ts[i..n + 1]) ==
      TagsIn(ts[i..n]) + if ts[n].typ == TagDirectiveToken then [TagDirective(ts[n].value, ts[n].prefix)] else []
  {
    assert ts[i..n + 1][..n - i] == ts[i..n] && ts[i..n + 1][n - i] == ts[n];
  }

  /** One more directive. */
  lemma OneVersion(ts: seq<Token>, i: nat, n: nat, tags: seq<TagDirective>)
    requires Collected(ts, i, n, None, tags) && n < |ts| && ts[n].typ == VersionDirectiveToken
    requires ts[n].major == 1 && ts[n].minor == 1
    ensures Collected(ts, i, n + 1, Some((1, 1)), tags)
  {
    hide TagsIn;
    TagsMore(ts, i, n);
  }

  lemma OneTag(ts: seq<Token>, i: nat, n: nat, version: Option<(int, int)>, tags: seq<TagDirective>)
    requires Collected(ts, i, n, version, tags) && n < |ts| && ts[n].typ == TagDirectiveToken
    requires !HasHandle(tags, ts[n].value)
    ensures Collected(ts, i, n + 1, version, tags + [TagDirective(ts[n].value, ts[n].prefix)])
  {
    hide TagsIn, HasHandle;
    TagsMore(ts, i, n);
    CollectedHandles(ts, i, n, version, tags, ts[n].value);
    assert version != None ==> exists j :: i <= j < n + 1 && ts[j].typ == VersionDirectiveToken;
  }

  /** A directive that is wrong after those before it. */
  predicate Wrong(t: Token, version: Option<(int, int)>, tags: seq<TagDirective>) {
    if t.typ == VersionDirectiveToken then version != None || t.major != 1 || t.minor != 1
    else t.typ == TagDirectiveToken && HasHandle(tags, t.value)
  }

  lemma NotCollected(ts: seq<Token>, i: nat, n: nat, version: Option<(int, int)>, tags: seq<TagDirective>, end: nat,
      e: Event)
    requires Collected(ts, i, n, version, tags) && (n < |ts| ==> Wrong(ts[n], version, tags))
    ensures !DirectivesFit(ts, i, end, e)
  {
    hide TagsIn, HasHandle;
    if n < |ts| && ts[n].typ == TagDirectiveToken {
      CollectedHandles(ts, i, n, version, tags, ts[n].value);
    }
    assert end < n && i <= end ==> IsDirectiveAt(ts, end);
  }

  lemma {:induction false} DirectivesAre(ts: seq<Token>, i: nat, n: nat, version: Option<(int, int)>,
      tags: seq<TagDirective>)
    requires Collected(ts, i, n, version, tags)
    ensures var d := DirectivesAt(ts, n, version, tags);
      match d
      case None => forall end, e :: !DirectivesFit(ts, i, end, e)
      case Some(ds) => forall e: Event :: e.version == ds.version && e.tagDirectives == ds.tags ==>
        DirectivesFit(ts, i, ds.next, e)
    decreases |ts| - n
  {
    hide Collected, HasHandle;
    if n < |ts| && IsDirective(ts[n]) {
      if ts[n].typ == VersionDirectiveToken && version == None && ts[n].major == 1 && ts[n].minor == 1 {
        OneVersion(ts, i, n, tags);
        DirectivesAre(ts, i, n + 1, Some((1, 1)), tags);
        return;
      } else if ts[n].typ == TagDirectiveToken && !HasHandle(tags, ts[n].value) {
        OneTag(ts, i, n, version, tags);
        DirectivesAre(ts, i, n + 1, version, tags + [TagDirective(ts[n].value, ts[n].prefix)]);
        return;
      }
    }
    if n >= |ts| || IsDirective(ts[n]) {
      forall end, e
        ensures !DirectivesFit(ts, i, end, e)
      {
        NotCollected(ts, i, n, version, tags, end, e);
      }
    }
  }

  lemma {:induction false} EndsPassed(ts: seq<Token>, pos: nat)
    ensures SkipEnds(ts, pos) < |ts| ==> Passes(ts, false, pos, SkipEnds(ts, pos))
    ensures SkipEnds(ts, pos) >= |ts| ==> forall n :: !Passes(ts, false, pos, n)
    decreases |ts| - pos
  {
    if pos < |ts| && ts[pos].typ == DocumentEndToken {
      EndsPassed(ts, pos + 1);
      forall n | Passes(ts, false, pos, n)
        ensures Passes(ts, false, pos + 1, n)
      {
      }
    }
  }

  lemma DocumentEndTells(ts: seq<Token>, explicit: bool, ds: seq<TagDirective>, pos: nat)
    ensures Tells(ts, In([], DocumentLevel(true, explicit), ds), pos, DocumentEndAt(ts, pos), Over)
    decreases |ts| - pos, 3
  {
    hide Tells, Stuck, DocumentStartAt, NodeFits, AbsentFits;
    var l := DocumentLevel(true, explicit);
    Top(ts, [], l, pos, pos);
    if pos >= |ts| {
      NoneFits(ts, [], l, ds, pos);
      TellsNothing(ts, In([], l, ds), pos, Over);
    } else if ts[pos].typ == DocumentEndToken {
      DocumentStartTells(ts, pos + 1, false);
      TellsFirst(ts, In([], l, ds), pos, MakeEvent(DocumentEnd, ts[pos].start, ts[pos].end), Window(pos, pos, pos + 1),
          DocumentStartAt(ts, pos + 1, false), Over);
    } else {
      DocumentStartTells(ts, pos, false);
      TellsFirst(ts, In([], l, ds), pos, MakeEvent(DocumentEnd, ts[pos].start, ts[pos].start).(implicit := true),
          Window(pos, pos, pos), DocumentStartAt(ts, pos, false), Over);
    }
  }

  lemma DocumentNodeTells(ts: seq<Token>, explicit: bool, ds: seq<TagDirective>, pos: nat)
    requires pos < |ts| ==> Leads(ts, DocumentLevel(false, explicit), pos, pos, false)
    ensures Tells(ts, In([], DocumentLevel(false, explicit), ds), pos, DocumentNode(ts, WithDefaults(ds), pos), Over)
    decreases |ts| - pos, 1
  {
    hide Tells, Stuck, WithDefaults, Node, DocumentEndAt;
    var l, l' := DocumentLevel(false, explicit), DocumentLevel(true, explicit);
    if pos >= |ts| {
      NoneFits(ts, [], l, ds, pos);
      TellsNothing(ts, In([], l, ds), pos, Over);
    } else {
      var node := Node(ts, WithDefaults(ds), pos, true, false);
      NodeTells(ts, [], l, ds, pos, pos, true, false);
      var states := [DocumentEndState];
      assert node.next.Some? ==>
        Rest(ts, WithDefaults(ds), states, node.next.value) == DocumentEndAt(ts, node.next.value);
      if node.next.Some? {
        DocumentEndTells(ts, explicit, ds, node.next.value);
        TellsOn(ts, In([], l, ds), pos, node, In([], l', ds), DocumentEndAt(ts, node.next.value), Over);
      } else {
        FailedThere(ts, In([], l, ds), pos, node, In([], l', ds), Over);
      }
    }
  }

  lemma DocumentContentTells(ts: seq<Token>, ds: seq<TagDirective>, pos: nat)
    ensures Tells(ts, In([], DocumentLevel(false, true), ds), pos, DocumentContentAt(ts, WithDefaults(ds), pos), Over)
    decreases |ts| - pos, 4
  {
    hide Tells, Stuck, WithDefaults, DocumentEndAt, DocumentNode;
    var l := DocumentLevel(false, true);
    if pos >= |ts| {
      NoneFits(ts, [], l, ds, pos);
      TellsNothing(ts, In([], l, ds), pos, Over);
    } else if Leads(ts, l, pos, pos, true) {
      DocumentEndTells(ts, true, ds, pos);
      AbsentTells(ts, [], l, ds, pos, pos, EmptyScalar(ts[pos].start), DocumentEndAt(ts, pos), Over);
    } else {
      DocumentNodeTells(ts, true, ds, pos);
    }
  }

  /** A document, or the end of the stream, whose first token is at `p`. */
  lemma DocumentStartTells(ts: seq<Token>, pos: nat, first: bool)
    ensures Tells(ts, Between(first), pos, DocumentStartAt(ts, pos, first), Over)
    decreases |ts| - pos, 2
  {
    hide Tells, Stuck, WithDefaults, DocumentNode, DocumentContentAt, DirectivesAt, DirectivesFit, Passes;
    EndsPassed(ts, pos);
    var p := if first then pos else SkipEnds(ts, pos);
    PassesNone(ts, pos);
    if p >= |ts| {
      StuckBetween(ts, first, pos);
      TellsNothing(ts, Between(first), pos, Over);
      return;
    }
    var t := ts[p];
    if first && !IsDirective(t) && t.typ != DocumentStartToken && t.typ != StreamEndToken {
      DocumentNodeTells(ts, false, [], p);
      assert [] + [DocumentLevel(false, false)] == [DocumentLevel(false, false)];
      TellsFirst(ts, Between(first), pos, MakeEvent(DocumentStart, t.start, t.end), Window(p, p, p),
          DocumentNode(ts, WithDefaults([]), p), Over);
    } else if t.typ == StreamEndToken {
      TellsOne(ts, Between(first), pos, MakeEvent(StreamEnd, t.start, t.end), Window(p, p, p + 1), p + 1);
    } else {
      ExplicitTells(ts, pos, first, p);
    }
  }

  /** What an explicit document looks like from its first token on. */
  lemma ExplicitIs(ts: seq<Token>, pos: nat, first: bool, p: nat)
    requires p < |ts| && ts[p].typ != StreamEndToken
    requires first ==> IsDirective(ts[p]) || ts[p].typ == DocumentStartToken
    requires p == if first then pos else SkipEnds(ts, pos)
    ensures DocumentStartAt(ts, pos, first) ==
      (var found := DirectivesAt(ts, p, None, []);
       if found == None || ts[found.value.next].typ != DocumentStartToken then FAIL
       else
         var d := found.value;
         Emit(MakeEvent(DocumentStart, ts[p].start, ts[d.next].end).(version := d.version, tagDirectives := d.tags),
              DocumentContentAt(ts, WithDefaults(d.tags), d.next + 1)))
  {
    hide DirectivesAt, DocumentContentAt, DocumentNode;
  }

  lemma ExplicitTells(ts: seq<Token>, pos: nat, first: bool, p: nat)
    requires p < |ts| && Passes(ts, first, pos, p) && ts[p].typ != StreamEndToken
    requires first ==> IsDirective(ts[p]) || ts[p].typ == DocumentStartToken
    requires p == if first then pos else SkipEnds(ts, pos)
    ensures Tells(ts, Between(first), pos, DocumentStartAt(ts, pos, first), Over)
    decreases |ts| - pos, 1
  {
    hide Tells, Stuck, WithDefaults, DocumentStartAt, DocumentContentAt, DirectivesAt, Passes, SkipEnds, Fits, Next, In;
    ExplicitIs(ts, pos, first, p);
    var found := DirectivesAt(ts, p, None, []);
    if found.Some? && ts[found.value.next].typ == DocumentStartToken {
      var d := found.value;
      var e := MakeEvent(DocumentStart, ts[p].start, ts[d.next].end).(version := d.version, tagDirectives := d.tags);
      DocumentContentTells(ts, d.tags, d.next + 1);
      ExplicitFits(ts, pos, first, p, d);
      TellsFirst(ts, Between(first), pos, e, Window(p, d.next, d.next + 1),
          DocumentContentAt(ts, WithDefaults(d.tags), d.next + 1), Over);
    } else {
      NoDocumentFits(ts, pos, first, p);
      TellsNothing(ts, Between(first), pos, Over);
    }
  }

  lemma ExplicitFits(ts: seq<Token>, pos: nat, first: bool, p: nat, d: Directives)
    requires p < |ts| && Passes(ts, first, pos, p) && ts[p].typ != StreamEndToken
    requires first ==> IsDirective(ts[p]) || ts[p].typ == DocumentStartToken
    requires DirectivesAt(ts, p, None, []) == Some(d) && ts[d.next].typ == DocumentStartToken
    ensures var e := MakeEvent(DocumentStart, ts[p].start, ts[d.next].end)
        .(version := d.version, tagDirectives := d.tags);
      var w := Window(p, d.next, d.next + 1);
      && Fits(ts, Between(first), pos, e, w)
      && Next(ts, Between(first), pos, e, w) == In([], DocumentLevel(false, true), d.tags)
  {
    hide DirectivesAt, DirectivesFit;
    NoneCollected(ts, p);
    DirectivesAre(ts, p, p, None, []);
    assert [] + [DocumentLevel(false, true)] == [DocumentLevel(false, true)];
  }

  lemma NoDocumentFits(ts: seq<Token>, pos: nat, first: bool, p: nat)
    requires p < |ts| && Passes(ts, first, pos, p) && ts[p].typ != StreamEndToken
    requires first ==> IsDirective(ts[p]) || ts[p].typ == DocumentStartToken
    requires var found := DirectivesAt(ts, p, None, []); found.Some? ==> ts[found.value.next].typ != DocumentStartToken
    ensures Stuck(ts, Between(first), pos)
  {
    hide Stuck, DirectivesAt, DirectivesFit, Passes;
    NoneCollected(ts, p);
    DirectivesAre(ts, p, p, None, []);
    var found := DirectivesAt(ts, p, None, []);
    forall e, w
      ensures !DocumentFits(ts, first, pos, e, w) && !StreamEndFits(ts, first, pos, e, w)
    {
      if Passes(ts, first, pos, w.start) {
        PassesOnce(ts, first, pos, p, w.start);
        if found.Some? && DirectivesFit(ts, p, w.content, e) {
          var d := found.value;
          var e' := MakeEvent(DocumentStart, ts[p].start, ts[p].start).(version := d.version, tagDirectives := d.tags);
          DirectivesOnce(ts, p, w.content, e, d.next, e');
        }
      }
    }
    NeitherFits(ts, first, pos);
  }

  lemma PassesNone(ts: seq<Token>, pos: nat)
    ensures if pos < |ts| then Passes(ts, true, pos, pos) else forall n :: !Passes(ts, true, pos, n)
  {
  }

  lemma NeitherFits(ts: seq<Token>, first: bool, pos: nat)
    requires forall e, w :: !DocumentFits(ts, first, pos, e, w) && !StreamEndFits(ts, first, pos, e, w)
    ensures Stuck(ts, Between(first), pos)
  {
    hide DocumentFits, StreamEndFits;
  }

  lemma StuckBetween(ts: seq<Token>, first: bool, pos: nat)
    requires forall n :: !Passes(ts, first, pos, n)
    ensures Stuck(ts, Between(first), pos)
  {
    hide Passes, DirectivesFit;
  }

  /** The descent gives the reading of the tokens. */
  lemma StreamTells(ts: seq<Token>)
    ensures Reading(ts, StreamAt(ts, 0).events, StreamAt(ts, 0).next)
  {
    hide Stuck, Reads, DocumentStartAt;
    if ts != [] && ts[0].typ == StreamStartToken {
      DocumentStartTells(ts, 1, true);
      TellsFirst(ts, Before, 0, MakeEvent(StreamStart, ts[0].start, ts[0].end), Window(0, 0, 1),
          DocumentStartAt(ts, 1, true), Over);
    } else {
      NoStream(ts);
      TellsNothing(ts, Before, 0, Over);
    }
  }

  lemma NoStream(ts: seq<Token>)
    requires ts == [] || ts[0].typ != StreamStartToken
    ensures Stuck(ts, Before, 0)
  {
  }

  lemma StreamReads(ts: seq<Token>, es: seq<Event>, next: Option<nat>)
    requires StreamAt(ts, 0) == Result(es, next)
    ensures Reading(ts, es, next) && forall e :: e in es ==> Untagged(e)
  {
    hide Reading, StreamAt, Untagged;
    StreamTells(ts);
    FlagsAre(ts, es, next);
  }
}
