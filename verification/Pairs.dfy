/** Where the parser departs from the grammar at the head of parserc.go: pairs without a key.
  *
  * What the grammar says is compared with what the code does, whatever tokens come after. */
module YamlPairs {
  import opened Options
  import opened YamlEvents
  import opened YamlTokens
  import opened YamlDescent

  /** The same outcome: two errors, or the same kinds of events up to the same place. */
  predicate Agree(a: Result, b: Result) {
    a.next == b.next && (a.next == None || Kinds(a.events) == Kinds(b.events))
  }

  /** Can a flow node start with the token `t`? A tag must have a handle that is known. */
  predicate StartsFlowNode(t: Token, ds: seq<TagDirective>) {
    match t.typ
    case AliasToken | ScalarToken | FlowSequenceStartToken | FlowMappingStartToken | AnchorToken => true
    case TagToken => Resolved(Some(t), ds) != None
    case _ => false
  }

  // ----- Pairs in flow sequences -------------------------------------------------------

  /** Is the key absent before this token? */
  predicate NoKeyBefore(t: Token) {
    t.typ == ValueToken || t.typ == FlowEntryToken || t.typ == FlowSequenceEndToken
  }

  /** flow_sequence_entry: KEY flow_node? (VALUE flow_node?)?, after KEY: no token belongs to an
    * absent key. */
  function PairOfGrammar(ts: seq<Token>, ds: seq<TagDirective>, pos: nat): Result {
    if pos < |ts| && NoKeyBefore(ts[pos]) then Emit(EmptyScalar(ts[pos].start), PairValue(ts, ds, pos))
    else PairKey(ts, ds, pos)
  }

  /** The two tokens after KEY for which dropping the first one with an absent key does no harm. */
  predicate Harmless(first: Token, second: Token, ds: seq<TagDirective>) {
    match first.typ
    case FlowSequenceEndToken => false
    case ValueToken =>
      || second.typ == FlowEntryToken || second.typ == FlowSequenceEndToken
      || (second.typ != ValueToken && !StartsFlowNode(second, ds))
    case FlowEntryToken =>
      || second.typ == FlowSequenceEndToken
      || (second.typ != ValueToken && second.typ != FlowEntryToken && second.typ != KeyToken &&
          !StartsFlowNode(second, ds))
    case _ => true
  }

  lemma NoFlowNode(ts: seq<Token>, ds: seq<TagDirective>, pos: nat)
    requires pos < |ts| && !StartsFlowNode(ts[pos], ds)
    ensures Node(ts, ds, pos, false, false) == FAIL
  {
    if ts[pos].typ == TagToken {
      var n := PropertiesEnd(ts, pos);
      assert TagIn(ts[pos..n]) == Some(ts[pos]);
    } else {
      assert PropertiesEnd(ts, pos) == pos && ts[pos..pos] == [];
    }
  }

  lemma AgreeEmit(e: Event, f: Event, a: Result, b: Result)
    requires e.kind == f.kind && Agree(a, b)
    ensures Agree(Emit(e, a), Emit(f, b))
  {
    assert Kinds([e] + a.events) == [e.kind] + Kinds(a.events);
    assert Kinds([f] + b.events) == [f.kind] + Kinds(b.events);
  }

  /** The code on a pair without a key. */
  lemma CodeOn(ts: seq<Token>, ds: seq<TagDirective>, pos: nat)
    requires pos + 1 < |ts| && NoKeyBefore(ts[pos])
    ensures PairKey(ts, ds, pos) == Emit(EmptyScalar(ts[pos].end), PairValue(ts, ds, pos + 1))
    ensures ts[pos + 1].typ != ValueToken ==>
      && PairValue(ts, ds, pos + 1) == Emit(EmptyScalar(ts[pos + 1].start), PairEnd(ts, ds, pos + 1))
      && PairEnd(ts, ds, pos + 1) ==
           Emit(MakeEvent(MappingEnd, ts[pos + 1].start, ts[pos + 1].start), FlowItems(ts, ds, pos + 1))
    ensures ts[pos + 1].typ != FlowEntryToken && ts[pos + 1].typ != FlowSequenceEndToken ==>
      FlowItems(ts, ds, pos + 1) == FAIL
  {
    hide Node, Then;
  }

  /** The grammar on a pair without a key, and a value. */
  lemma GrammarOnValue(ts: seq<Token>, ds: seq<TagDirective>, pos: nat)
    requires pos + 1 < |ts| && ts[pos].typ == ValueToken
    ensures PairOfGrammar(ts, ds, pos) == Emit(EmptyScalar(ts[pos].start),
      if ts[pos + 1].typ != FlowEntryToken && ts[pos + 1].typ != FlowSequenceEndToken then
        Then(ts, ds, Node(ts, ds, pos + 1, false, false), FlowSequenceEntryMappingEndState)
      else Emit(EmptyScalar(ts[pos].start), PairEnd(ts, ds, pos + 1)))
  {
    hide Node, Then, PairEnd;
    assert PairOfGrammar(ts, ds, pos) == Emit(EmptyScalar(ts[pos].start), PairValue(ts, ds, pos));
  }

  /** The grammar on a pair without a key and a value. */
  lemma GrammarOnNone(ts: seq<Token>, ds: seq<TagDirective>, pos: nat)
    requires pos < |ts| && NoKeyBefore(ts[pos]) && ts[pos].typ != ValueToken
    ensures PairOfGrammar(ts, ds, pos) == Emit(EmptyScalar(ts[pos].start), Emit(EmptyScalar(ts[pos].start),
      Emit(MakeEvent(MappingEnd, ts[pos].start, ts[pos].start), FlowItems(ts, ds, pos))))
  {
    hide Node, Then, FlowItems;
    assert PairValue(ts, ds, pos) == Emit(EmptyScalar(ts[pos].start), PairEnd(ts, ds, pos));
  }

  lemma ItemsAt(ts: seq<Token>, ds: seq<TagDirective>, pos: nat)
    requires pos < |ts|
    ensures ts[pos].typ == FlowEntryToken && pos + 1 < |ts| ==> FlowItems(ts, ds, pos) == FlowItem(ts, ds, pos + 1)
    ensures ts[pos].typ == FlowSequenceEndToken ==>
      FlowItems(ts, ds, pos) == FlowItem(ts, ds, pos) ==
          Single(MakeEvent(SequenceEnd, ts[pos].start, ts[pos].end), pos + 1)
  {
    hide Node, Then;
  }

  /** The code and the grammar agree on every text in which the two tokens are harmless. */
  lemma HarmlessAgrees(ts: seq<Token>, ds: seq<TagDirective>, pos: nat)
    requires pos + 1 < |ts| && Harmless(ts[pos], ts[pos + 1], ds)
    ensures Agree(PairKey(ts, ds, pos), PairOfGrammar(ts, ds, pos))
  {
    hide Node, Then, Kinds, PairKey, PairValue, PairEnd, FlowItems, StartsFlowNode;
    var first, second := ts[pos], ts[pos + 1];
    if NoKeyBefore(first) {
      CodeOn(ts, ds, pos);
      ItemsAt(ts, ds, pos);
      ItemsAt(ts, ds, pos + 1);
      if second.typ == FlowEntryToken || second.typ == FlowSequenceEndToken {
        var end := PairEnd(ts, ds, pos + 1);
        if first.typ == ValueToken {
          GrammarOnValue(ts, ds, pos);
          AgreeEmit(EmptyScalar(second.start), EmptyScalar(first.start), end, end);
          AgreeEmit(EmptyScalar(first.end), EmptyScalar(first.start),
            Emit(EmptyScalar(second.start), end), Emit(EmptyScalar(first.start), end));
        } else {
          GrammarOnNone(ts, ds, pos);
          var items := FlowItems(ts, ds, pos);
          var e, f := MakeEvent(MappingEnd, second.start, second.start),
              MakeEvent(MappingEnd, first.start, first.start);
          AgreeEmit(e, f, items, items);
          AgreeEmit(EmptyScalar(second.start), EmptyScalar(first.start), Emit(e, items), Emit(f, items));
          AgreeEmit(EmptyScalar(first.end), EmptyScalar(first.start),
            Emit(EmptyScalar(second.start), Emit(e, items)), Emit(EmptyScalar(first.start), Emit(f, items)));
        }
      } else {
        NoFlowNode(ts, ds, pos + 1);
        GrammarFails(ts, ds, pos);
      }
    }
  }

  /** The grammar fails where the pair or the next entry cannot go on. */
  lemma GrammarFails(ts: seq<Token>, ds: seq<TagDirective>, pos: nat)
    requires pos + 1 < |ts| && (ts[pos].typ == ValueToken || ts[pos].typ == FlowEntryToken) &&
      !StartsFlowNode(ts[pos + 1], ds)
    requires ts[pos + 1].typ != FlowSequenceEndToken
    requires ts[pos + 1].typ != if ts[pos].typ == ValueToken then FlowEntryToken else KeyToken
    ensures PairOfGrammar(ts, ds, pos).next == None
  {
    hide Node, StartsFlowNode, PairKey, PairValue, PairEnd, FlowItems, PairOfGrammar;
    NoFlowNode(ts, ds, pos + 1);
    if ts[pos].typ == ValueToken {
      GrammarOnValue(ts, ds, pos);
    } else {
      GrammarOnNone(ts, ds, pos);
      ItemsAt(ts, ds, pos);
      assert FlowItem(ts, ds, pos + 1).next == None;
    }
  }

  // ----- Texts in which dropping the token does harm -----------------------------------

  function TokenOf(typ: TokenType): Token {
    Token(typ, NO_MARK, NO_MARK, "", "", "", Plain, 0, 0)
  }

  /** Tokens that make a whole node of what starts with `t`. */
  function Completion(t: Token): seq<Token> {
    match t.typ
    case FlowSequenceStartToken => [TokenOf(FlowSequenceEndToken)]
    case FlowMappingStartToken => [TokenOf(FlowMappingEndToken)]
    case AnchorToken | TagToken => [TokenOf(ScalarToken)]
    case _ => []
  }

  lemma EmptyFlow(ts: seq<Token>, ds: seq<TagDirective>, pos: nat)
    requires pos < |ts|
    ensures pos + 1 < |ts| && ts[pos + 1].typ == FlowSequenceEndToken ==>
      FlowSequence(ts, ds, pos).next == Some(pos + 2)
    ensures pos + 1 < |ts| && ts[pos + 1].typ == FlowMappingEndToken ==> FlowMapping(ts, ds, pos).next == Some(pos + 2)
  {
    hide Node, Then;
  }

  /** The properties of a node that has at most one, with content behind it. */
  lemma PropertiesOfOne(ts: seq<Token>, pos: nat)
    requires pos < |ts|
    requires ts[pos].typ == AnchorToken || ts[pos].typ == TagToken ==> pos + 1 < |ts| && ts[pos + 1].typ == ScalarToken
    ensures var n := PropertiesEnd(ts, pos);
      && n == (if ts[pos].typ == AnchorToken || ts[pos].typ == TagToken then pos + 1 else pos)
      && AnchorIn(ts[pos..n]) == (if ts[pos].typ == AnchorToken then Some(ts[pos].value) else None)
      && TagIn(ts[pos..n]) == (if ts[pos].typ == TagToken then Some(ts[pos]) else None)
  {
    var n := PropertiesEnd(ts, pos);
    PropertiesAre(ts, pos, n);
    assert n > pos ==> ts[pos..n][0] == ts[pos];
  }

  lemma CompletionIsNode(ts: seq<Token>, ds: seq<TagDirective>, pos: nat)
    requires pos < |ts| && StartsFlowNode(ts[pos], ds)
    requires var more := Completion(ts[pos]); pos + 1 + |more| <= |ts| && ts[pos + 1..pos + 1 + |more|] == more
    ensures Node(ts, ds, pos, false, false).next == Some(pos + 1 + |Completion(ts[pos])|)
  {
    hide FlowSequence, FlowMapping, BlockItems, BlockKeys, Indentless, PropertiesEnd, AnchorIn, TagIn;
    var more := Completion(ts[pos]);
    assert more != [] ==> ts[pos + 1] == ts[pos + 1..pos + 1 + |more|][0];
    PropertiesOfOne(ts, pos);
    EmptyFlow(ts, ds, pos);
  }

  /** A text after the two tokens on which the code and the grammar do not agree. */
  function Witness(first: Token, second: Token): seq<Token> {
    var end := TokenOf(FlowSequenceEndToken);
    if first.typ == FlowEntryToken && second.typ == KeyToken then [TokenOf(ScalarToken), end]
    else Completion(second) + [end]
  }

  /** After a node and ']', the sequence is complete. */
  lemma EndsAfter(ts: seq<Token>, ds: seq<TagDirective>, node: Result, s: State)
    requires From(node, 0, ts) && node.next.Some? && node.next.value + 1 == |ts|
    requires ts[node.next.value].typ == FlowSequenceEndToken
    requires s == FlowSequenceEntryState || s == FlowSequenceEntryMappingValueState
      || s == FlowSequenceEntryMappingEndState
    ensures Then(ts, ds, node, s).next == Some(|ts|)
  {
    hide Node;
    var p := node.next.value;
    assert FlowItems(ts, ds, p).next == Some(p + 1);
    assert PairEnd(ts, ds, p).next == Some(p + 1);
    assert PairValue(ts, ds, p).next == Some(p + 1);
  }

  /** An absent key before ']' takes the end of the sequence away, whatever comes after. */
  lemma EndTaken(ts: seq<Token>, ds: seq<TagDirective>, pos: nat)
    requires pos < |ts| && ts[pos].typ == FlowSequenceEndToken
    ensures PairOfGrammar(ts, ds, pos).next == Some(pos + 1) != PairKey(ts, ds, pos).next
  {
    hide Node, Then;
    GrammarOnNone(ts, ds, pos);
    ItemsAt(ts, ds, pos);
    assert PairKey(ts, ds, pos) == Emit(EmptyScalar(ts[pos].end), PairValue(ts, ds, pos + 1));
  }

  /** The code takes a second VALUE or ',' along, which the grammar does not have. */
  lemma CodeTakesMore(ts: seq<Token>, ds: seq<TagDirective>, pos: nat)
    requires |ts| == pos + 3 && ts[pos + 2].typ == FlowSequenceEndToken && NoKeyBefore(ts[pos])
    requires ts[pos + 1].typ == ValueToken || ts[pos + 1].typ == FlowEntryToken
    ensures PairKey(ts, ds, pos).next == Some(pos + 3)
  {
    hide Node, Then, PairKey;
    CodeOn(ts, ds, pos);
    ItemsAt(ts, ds, pos + 2);
    if ts[pos + 1].typ == ValueToken {
      assert PairEnd(ts, ds, pos + 2).next == Some(pos + 3);
    } else {
      ItemsAt(ts, ds, pos + 1);
    }
  }

  /** The grammar takes a value or the next entry, which the code leaves standing. */
  lemma GrammarTakesMore(ts: seq<Token>, ds: seq<TagDirective>, pos: nat)
    requires pos + 1 < |ts| && (ts[pos].typ == ValueToken || ts[pos].typ == FlowEntryToken) &&
      StartsFlowNode(ts[pos + 1], ds)
    requires ts[pos + 2..] == Completion(ts[pos + 1]) + [TokenOf(FlowSequenceEndToken)]
    ensures PairKey(ts, ds, pos).next == None && PairOfGrammar(ts, ds, pos).next == Some(|ts|)
  {
    hide Node, Then, PairKey, PairValue, PairEnd, FlowItems, PairOfGrammar;
    var more := Completion(ts[pos + 1]);
    var node := Node(ts, ds, pos + 1, false, false);
    assert ts[pos + 2..pos + 2 + |more|] == ts[pos + 2..][..|more|] == more;
    assert ts[pos + 2 + |more|] == ts[pos + 2..][|more|];
    CompletionIsNode(ts, ds, pos + 1);
    CodeOn(ts, ds, pos);
    if ts[pos].typ == ValueToken {
      GrammarOnValue(ts, ds, pos);
      EndsAfter(ts, ds, node, FlowSequenceEntryMappingEndState);
    } else {
      GrammarOnNone(ts, ds, pos);
      ItemsAt(ts, ds, pos);
      EndsAfter(ts, ds, node, FlowSequenceEntryState);
    }
  }

  lemma ItemIsPair(ts: seq<Token>, ds: seq<TagDirective>, pos: nat)
    requires pos < |ts| && ts[pos].typ == KeyToken
    ensures FlowItem(ts, ds, pos).next == PairKey(ts, ds, pos + 1).next
  {
    hide Node, Then, PairKey;
  }

  lemma ScalarIsNode(ts: seq<Token>, ds: seq<TagDirective>, pos: nat)
    requires pos < |ts| && ts[pos].typ == ScalarToken
    ensures Node(ts, ds, pos, false, false).next == Some(pos + 1)
  {
    assert ts[pos..pos + 0] == [];
  }

  lemma KeyThere(ts: seq<Token>, ds: seq<TagDirective>, pos: nat)
    requires pos < |ts| && !NoKeyBefore(ts[pos])
    ensures PairKey(ts, ds, pos) == Then(ts, ds, Node(ts, ds, pos, false, false), FlowSequenceEntryMappingValueState)
  {
    hide Node, Then;
  }

  /** The grammar takes a pair as the next entry. */
  lemma GrammarTakesPair(ts: seq<Token>, ds: seq<TagDirective>, pos: nat)
    requires |ts| == pos + 4 && ts[pos].typ == FlowEntryToken && ts[pos + 1].typ == KeyToken
    requires ts[pos + 2].typ == ScalarToken && ts[pos + 3].typ == FlowSequenceEndToken
    ensures PairKey(ts, ds, pos).next == None && PairOfGrammar(ts, ds, pos).next == Some(pos + 4)
  {
    hide Node, Then, PairKey, PairValue, PairEnd, FlowItems, FlowItem, PairOfGrammar;
    var node := Node(ts, ds, pos + 2, false, false);
    ScalarIsNode(ts, ds, pos + 2);
    CodeOn(ts, ds, pos);
    GrammarOnNone(ts, ds, pos);
    ItemsAt(ts, ds, pos);
    EndsAfter(ts, ds, node, FlowSequenceEntryMappingValueState);
    KeyThere(ts, ds, pos + 2);
    ItemIsPair(ts, ds, pos + 1);
  }

  /** Otherwise there is a text on which they do not. */
  lemma HarmDone(ts: seq<Token>, ds: seq<TagDirective>, pos: nat)
    requires pos + 1 < |ts| && !Harmless(ts[pos], ts[pos + 1], ds) && ts[pos + 2..] == Witness(ts[pos], ts[pos + 1])
    ensures !Agree(PairKey(ts, ds, pos), PairOfGrammar(ts, ds, pos))
  {
    hide PairKey, PairOfGrammar, Kinds;
    var first, second := ts[pos], ts[pos + 1];
    var rest := Witness(first, second);
    assert |ts| == pos + 2 + |rest| && ts[pos + 2] == rest[0];
    if first.typ == FlowSequenceEndToken {
      EndTaken(ts, ds, pos);
    } else if second.typ == ValueToken || second.typ == FlowEntryToken {
      CodeTakesMore(ts, ds, pos);
      GrammarFails(ts, ds, pos);
    } else if second.typ == KeyToken {
      assert ts[pos + 3] == ts[pos + 2..][1];
      GrammarTakesPair(ts, ds, pos);
    } else {
      GrammarTakesMore(ts, ds, pos);
    }
  }

  /** For every text and place of a pair: whatever comes after the two tokens that follow KEY, the
    * code and the grammar agree, if and only if these two are harmless. */
  lemma PairsAgreeExactly(read: seq<Token>, ds: seq<TagDirective>)
    requires |read| >= 2
    ensures var pos := |read| - 2;
      (forall more: seq<Token> :: Agree(PairKey(read + more, ds, pos), PairOfGrammar(read + more, ds, pos)))
        <==> Harmless(read[pos], read[pos + 1], ds)
  {
    hide PairKey, PairOfGrammar, Agree, Harmless, Witness;
    var pos := |read| - 2;
    if Harmless(read[pos], read[pos + 1], ds) {
      forall more: seq<Token> ensures Agree(PairKey(read + more, ds, pos), PairOfGrammar(read + more, ds, pos)) {
        HarmlessAgrees(read + more, ds, pos);
      }
    } else {
      var more := Witness(read[pos], read[pos + 1]);
      assert (read + more)[pos + 2..] == more;
      HarmDone(read + more, ds, pos);
    }
  }

  /** Where the text ends after at most one token, both fail, unless that token is ']'. */
  lemma PairAtEnd(ts: seq<Token>, ds: seq<TagDirective>, pos: nat)
    requires pos <= |ts| <= pos + 1
    ensures Agree(PairKey(ts, ds, pos), PairOfGrammar(ts, ds, pos))
      <==> pos == |ts| || ts[pos].typ != FlowSequenceEndToken
  {
    hide Node, Then;
    if pos < |ts| && ts[pos].typ == FlowSequenceEndToken {
      EndTaken(ts, ds, pos);
    } else if pos < |ts| && ts[pos].typ == FlowEntryToken {
      GrammarOnNone(ts, ds, pos);
      assert FlowItems(ts, ds, pos) == FAIL;
    } else if pos < |ts| && ts[pos].typ == ValueToken {
      assert PairValue(ts, ds, pos) == FAIL;
    }
  }

  // ----- Entries of block mappings -----------------------------------------------------

  /** block_mapping: ((KEY node?)? (VALUE node?)?)* BLOCK-END: an entry may start with VALUE. */
  function EntriesOfGrammar(ts: seq<Token>, ds: seq<TagDirective>, pos: nat): Result {
    if pos < |ts| && ts[pos].typ == ValueToken then Emit(EmptyScalar(ts[pos].start), BlockValue(ts, ds, pos))
    else BlockKeys(ts, ds, pos)
  }

  /** The code takes no entry of a block mapping that has a value and no key: whatever comes after,
    * it and the grammar agree, if and only if the entry does not start with VALUE. */
  lemma EntriesAgreeExactly(read: seq<Token>, ds: seq<TagDirective>)
    requires read != []
    ensures var pos := |read| - 1;
      (forall more: seq<Token> :: Agree(BlockKeys(read + more, ds, pos), EntriesOfGrammar(read + more, ds, pos)))
        <==> read[pos].typ != ValueToken
  {
    var pos := |read| - 1;
    if read[pos].typ == ValueToken {
      var ts := read + [TokenOf(BlockEndToken)];
      assert BlockKeys(ts, ds, pos) == FAIL;
      assert BlockKeys(ts, ds, pos + 1).next == Some(pos + 2);
      assert BlockValue(ts, ds, pos).next == Some(pos + 2);
    }
  }
}
