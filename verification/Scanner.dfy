/** The bookkeeping of the YAML scanner (scannerc.go): the token queue into which tokens are
  * inserted late (`yaml_insert_token` in apic.go), the stack of possible simple keys and the
  * stack of indentations.
  *
  * The text is modelled as the sequence of lexemes that `yaml_parser_fetch_next_token`
  * recognises, each with the marks at which it starts and at which it leaves the scanner. */
module YamlScanner {
  import opened Options
  import opened YamlEvents
  import opened YamlTokens

  datatype Problem = NoProblem | ScannerError(problem: string) | ShouldNotHappen

  /** `Broken`: scanning a token of this type fails. `Strange`: no token starts here. */
  datatype Lexeme =
    | Lexeme(token: Token, after: Mark, leadingBlanks: bool)
    | Broken(token: Token, problem: string)
    | Strange(start: Mark)

  datatype Key = Key(possible: bool, required: bool, tokenNumber: nat, mark: Mark)

  const NO_KEY := Key(false, false, 0, Mark(0, 0, 0))

  function BareToken(typ: TokenType, mark: Mark): Token {
    Token(typ, mark, mark, "", "", "", AnyStyle, 0, 0)
  }

  // ----- Marks and lexemes -------------------------------------------------------------

  predicate Follows(a: Mark, b: Mark) {
    a.index <= b.index && (a.line < b.line || (a.line == b.line && a.column <= b.column))
  }

  predicate Before(a: Mark, b: Mark) {
    a.index < b.index && (a.line < b.line || (a.line == b.line && a.column < b.column))
  }

  predicate IsBlockStart(typ: TokenType) {
    typ == BlockSequenceStartToken || typ == BlockMappingStartToken
  }

  predicate IsBlock(typ: TokenType) {
    IsBlockStart(typ) || typ == BlockEndToken
  }

  predicate IsDirective(typ: TokenType) {
    typ == VersionDirectiveToken || typ == TagDirectiveToken
  }

  /** Tokens that span several characters and are read by a function of their own. */
  predicate IsScanned(typ: TokenType) {
    IsDirective(typ) || typ == AliasToken || typ == AnchorToken || typ == TagToken || typ == ScalarToken
  }

  predicate IsBlockScalar(t: Token) {
    t.typ == ScalarToken && (t.style == Literal || t.style == Folded)
  }

  predicate AtLineStart(typ: TokenType) {
    IsDirective(typ) || typ == DocumentStartToken || typ == DocumentEndToken
  }

  function StartOf(l: Lexeme): Mark {
    match l
    case Lexeme(t, _, _) => t.start
    case Broken(t, _) => t.start
    case Strange(m) => m
  }

  predicate ValidLexeme(l: Lexeme) {
    match l
    case Lexeme(t, after, blanks) =>
      && !IsBlock(t.typ) && t.typ != StreamStartToken
      && (AtLineStart(t.typ) ==> t.start.column == 0)
      && (blanks ==> t.start.line < after.line)
      && if t.typ == StreamEndToken then t.end == t.start == after else Before(t.start, t.end) && Follows(t.end, after)
    case Broken(t, _) => IsScanned(t.typ) && (AtLineStart(t.typ) ==> t.start.column == 0)
    case Strange(_) => true
  }

  function EndOf(l: Lexeme): Mark {
    if l.Lexeme? then l.after else StartOf(l)
  }

  predicate IsEnd(l: Lexeme) {
    l.Lexeme? && l.token.typ == StreamEndToken
  }

  /** The lexemes of a text: each starts at or after the end of the one before it, and the
    * end of the stream comes last. */
  predicate ValidInput(input: seq<Lexeme>) {
    && input != []
    && (forall i :: 0 <= i < |input| ==> ValidLexeme(input[i]))
    && (forall i :: 0 <= i < |input| ==> (IsEnd(input[i]) <==> i == |input| - 1))
    && (forall i :: 0 < i < |input| ==> Follows(EndOf(input[i - 1]), StartOf(input[i])))
  }

  // ----- What a token stream means -----------------------------------------------------

  function Insert(ts: seq<Token>, p: nat, t: Token): (r: seq<Token>)
    requires p <= |ts|
    ensures |r| == |ts| + 1
  {
    ts[..p] + [t] + ts[p..]
  }

  /** Tokens that stand for no text. */
  predicate Synthetic(t: Token) {
    IsBlock(t.typ) || (t.typ == KeyToken && t.start == t.end)
  }

  function Proper(ts: seq<Token>): (r: seq<Token>) {
    if ts == [] then []
    else
      var t := ts[|ts| - 1];
      Proper(ts[..|ts| - 1]) + if Synthetic(t) then [] else [t]
  }

  /** The columns of the block collections that `ts` leaves open; `None` if some BLOCK-END
    * closes nothing or some collection is not indented more than the one around it. */
  function Nest(ts: seq<Token>): (r: Option<seq<int>>) {
    if ts == [] then Some([])
    else NestStep(Nest(ts[..|ts| - 1]), ts[|ts| - 1])
  }

  function NestStep(r: Option<seq<int>>, t: Token): Option<seq<int>> {
    if r.None? || !IsBlock(t.typ) then r
    else if t.typ == BlockEndToken then
      if r.value == [] then None else Some(r.value[..|r.value| - 1])
    else if t.start.column > Top(r.value) then Some(r.value + [t.start.column])
    else None
  }

  function Top(columns: seq<int>): int {
    if columns == [] then -1 else columns[|columns| - 1]
  }

  predicate NoBlock(ts: seq<Token>, p: nat) {
    forall k :: p <= k < |ts| ==> !IsBlock(ts[k].typ)
  }

  /** Tokens that announce the token after them. */
  predicate Pins(t: Token) {
    Synthetic(t) && t.typ != BlockEndToken
  }

  /** Every announcing token stands directly before a token that starts at the same mark. */
  predicate Pinned(ts: seq<Token>) {
    forall k :: 0 <= k < |ts| && Pins(ts[k]) ==> k + 1 < |ts| && ts[k + 1].start == ts[k].start
  }

  predicate Settled(ts: seq<Token>) {
    ts != [] && !Pins(ts[|ts| - 1])
  }

  lemma {:induction false} NestPlainTail(ts: seq<Token>, p: nat)
    requires p <= |ts| && NoBlock(ts, p)
    ensures Nest(ts) == Nest(ts[..p])
    decreases |ts|
  {
    if p == |ts| {
      assert ts[..p] == ts;
    } else {
      var front := ts[..|ts| - 1];
      NestPlainTail(front, p);
      assert front[..p] == ts[..p];
    }
  }

  lemma {:induction false} InsertPlain(ts: seq<Token>, p: nat, t: Token)
    requires p <= |ts| && !IsBlock(t.typ)
    ensures Nest(Insert(ts, p, t)) == Nest(ts)
    decreases |ts|
  {
    var all := Insert(ts, p, t);
    if p == |ts| {
      assert all[..|ts|] == ts;
    } else {
      InsertPlain(ts[..|ts| - 1], p, t);
      assert all[..|ts|] == Insert(ts[..|ts| - 1], p, t);
    }
  }

  lemma NestLast(ts: seq<Token>, t: Token)
    ensures Nest(ts + [t]) == NestStep(Nest(ts), t)
  {
    assert (ts + [t])[..|ts|] == ts;
  }

  lemma InsertStart(ts: seq<Token>, p: nat, t: Token)
    requires p <= |ts| && NoBlock(ts, p) && IsBlockStart(t.typ) && Nest(ts).Some? &&
      t.start.column > Top(Nest(ts).value)
    ensures Nest(Insert(ts, p, t)) == Some(Nest(ts).value + [t.start.column])
  {
    hide Nest;
    var all := Insert(ts, p, t);
    NestPlainTail(ts, p);
    NestLast(ts[..p], t);
    assert all[..p + 1] == ts[..p] + [t];
    assert NoBlock(all, p + 1) by {
      assert forall k :: p + 1 <= k < |all| ==> all[k] == ts[k - 1];
    }
    NestPlainTail(all, p + 1);
  }

  lemma {:induction false} ProperInsert(ts: seq<Token>, p: nat, t: Token)
    requires p <= |ts| && Synthetic(t)
    ensures Proper(Insert(ts, p, t)) == Proper(ts)
    decreases |ts|
  {
    var all := Insert(ts, p, t);
    if p == |ts| {
      assert all[..|ts|] == ts;
    } else {
      ProperInsert(ts[..|ts| - 1], p, t);
      assert all[..|ts|] == Insert(ts[..|ts| - 1], p, t);
    }
  }

  lemma PinnedInsert(ts: seq<Token>, p: nat, t: Token)
    requires p < |ts| && Pinned(ts)
    requires t.start == ts[p].start || (!Pins(t) && (p == 0 || !Pins(ts[p - 1])))
    ensures Pinned(Insert(ts, p, t))
  {
    var all := Insert(ts, p, t);
    forall k | 0 <= k < |all| && Pins(all[k]) ensures k + 1 < |all| && all[k + 1].start == all[k].start {
      if k < p {
        assert all[k] == ts[k];
        assert ts[k + 1].start == ts[k].start;
        assert k + 1 < p ==> all[k + 1] == ts[k + 1];
      } else if k == p {
        assert all[k + 1] == ts[p];
      } else {
        assert all[k] == ts[k - 1];
        assert all[k + 1] == ts[k];
      }
    }
  }

  /** Block collections are indented more and more. */
  lemma {:induction false} NestIncreases(ts: seq<Token>)
    requires Nest(ts).Some?
    ensures var cs := Nest(ts).value; forall i, j :: 0 <= i < j < |cs| ==> 0 <= cs[i] < cs[j]
    ensures var cs := Nest(ts).value; forall i :: 0 <= i < |cs| ==> 0 <= cs[i]
    decreases |ts|
  {
    if ts != [] {
      NestIncreases(ts[..|ts| - 1]);
    }
  }

  // ----- The state between two operations ----------------------------------------------

  /** The scanner's bookkeeping. `history` holds every token ever put into the queue, where it
    * is now; the first `parsed` of them have been delivered. */
  datatype Book = Book(keys: seq<Key>, indents: seq<int>, indent: int, flowLevel: nat,
                       keyAllowed: bool, mark: Mark, history: seq<Token>, parsed: nat)

  /** Each possible simple key denotes a token that waits in the queue and starts at the key's
    * mark; deeper flow levels have later tokens. */
  predicate KeysIn(keys: seq<Key>, ts: seq<Token>, parsed: nat) {
    && (forall i :: 0 <= i < |keys| && keys[i].possible ==>
          parsed <= keys[i].tokenNumber < |ts| && ts[keys[i].tokenNumber].start == keys[i].mark)
    && (forall i, j :: 0 <= i < j < |keys| && keys[i].possible && keys[j].possible ==>
          keys[i].tokenNumber < keys[j].tokenNumber)
  }

  predicate KeysBefore(keys: seq<Key>, mark: Mark) {
    forall i :: 0 <= i < |keys| && keys[i].possible ==> Before(keys[i].mark, mark)
  }

  predicate KeysOnLine(keys: seq<Key>, line: nat) {
    forall i :: 0 <= i < |keys| && keys[i].possible ==> keys[i].mark.line == line
  }

  predicate KeysAbove(keys: seq<Key>, line: nat) {
    forall i :: 0 <= i < |keys| && keys[i].possible ==> keys[i].mark.line < line
  }

  /** The stack of indentations is the nesting of the tokens. */
  predicate Nested(b: Book) {
    (b.indents + [b.indent])[0] == -1 && Nest(b.history) == Some((b.indents + [b.indent])[1..])
  }

  predicate OnLine(k: Key, line: nat) {
    k.possible && k.mark.line == line
  }

  /** No block collection was opened or closed after a key of the block level. */
  predicate StillOpen(k: Key, b: Book) {
    OnLine(k, b.mark.line) ==> NoBlock(b.history, k.tokenNumber) && b.indent <= k.mark.column
  }

  /** What holds between two calls of `FetchNextToken`. */
  predicate Rest(b: Book) {
    && |b.keys| == b.flowLevel + 1 && b.parsed <= |b.history|
    && KeysIn(b.keys, b.history, b.parsed) && KeysBefore(b.keys, b.mark)
    && Nested(b) && StillOpen(b.keys[0], b)
    && (b.flowLevel == 0 && OnLine(b.keys[0], b.mark.line) ==> !b.keyAllowed)
    && Pinned(b.history) && Settled(b.history)
  }

  /** What holds while `tok`, which ends at `after`, is about to be appended. */
  predicate Mid(b: Book, tok: Token, after: Mark) {
    && |b.keys| == b.flowLevel + 1 && b.parsed <= |b.history| && tok.start == b.mark
    && !Synthetic(tok) && Follows(b.mark, after)
    && KeysIn(b.keys, b.history + [tok], b.parsed) && KeysBefore(b.keys, after) && KeysAbove(b.keys, b.mark.line + 1)
    && Nested(b) && StillOpen(b.keys[0], b)
    && Pinned(b.history + [tok])
  }

  lemma Begin(b: Book, tok: Token, after: Mark)
    requires Rest(b) && tok.start == b.mark && !Synthetic(tok) && Follows(b.mark, after)
    ensures Mid(b, tok, after)
  {
    hide Nest;
    forall k | 0 <= k < |b.history| && Pins(b.history[k]) ensures k + 1 < |b.history| {}
  }

  lemma Finish(b: Book, tok: Token, after: Mark, keyAllowed: bool)
    requires Mid(b, tok, after)
    requires b.flowLevel == 0 && OnLine(b.keys[0], after.line) ==> !keyAllowed
    ensures Rest(b.(history := b.history + [tok], mark := after, keyAllowed := keyAllowed))
  {
    hide Nest;
    NestLast(b.history, tok);
  }

  /** The text moved on; a new line in the block context allows a simple key. */
  lemma MoveOn(b: Book, mark: Mark, keyAllowed: bool)
    requires Rest(b) && Follows(b.mark, mark)
    requires mark.line == b.mark.line ==> keyAllowed == b.keyAllowed
    ensures Rest(b.(mark := mark, keyAllowed := keyAllowed))
  {
    hide Nest;
  }

  lemma LoseKey(b: Book, i: nat)
    requires i < |b.keys| && Rest(b)
    ensures Rest(b.(keys := b.keys[i := b.keys[i].(possible := false)]))
  {
    hide Nest;
  }

  /** A new flow level has no simple key yet. */
  lemma SaveKey(b: Book, key: Key, tok: Token, after: Mark)
    requires Rest(b) && key.tokenNumber == |b.history| && key.mark == b.mark == tok.start
    requires b.flowLevel == 0 ==> b.indent <= b.mark.column
    requires !Synthetic(tok) && Before(b.mark, after)
    ensures Mid(b.(keys := b.keys[|b.keys| - 1 := key]), tok, after)
  {
    hide Nest;
    Begin(b, tok, after);
  }

  lemma CloseBlock(b: Book)
    requires Rest(b) && b.flowLevel == 0 && !OnLine(b.keys[0], b.mark.line) && b.indent > -1
    ensures b.indents != []
    ensures var top := |b.indents| - 1;
      Rest(b.(history := b.history + [BareToken(BlockEndToken, b.mark)], indent := b.indents[top],
          indents := b.indents[..top]))
  {
    hide Nest;
    NestLast(b.history, BareToken(BlockEndToken, b.mark));
    var stack := b.indents + [b.indent];
    assert b.indents != [];
    var top := |b.indents| - 1;
    assert b.indents[..top] + [b.indents[top]] == b.indents;
    assert stack[1..][..|stack| - 2] == b.indents[1..];
  }

  /** Opening a block collection at `p`: a token already queued, or the one to be appended. */
  lemma OpenBlock(b: Book, p: nat, t: Token, key: Key, tok: Token, after: Mark)
    requires Mid(b, tok, after) && b.flowLevel == 0 && !key.possible && b.parsed <= p <= |b.history|
    requires NoBlock(b.history, p) && IsBlockStart(t.typ) && t.start.column > b.indent
    requires t.start == (b.history + [tok])[p].start
    ensures Mid(b.(history := Insert(b.history, p, t), indents := b.indents + [b.indent], indent := t.start.column,
      keys := [key]), tok, after)
  {
    hide Nest;
    var stack := b.indents + [b.indent];
    assert Top(stack[1..]) == b.indent;
    InsertStart(b.history, p, t);
    assert (stack + [t.start.column])[1..] == stack[1..] + [t.start.column];
    PinnedInsert(b.history + [tok], p, t);
    assert Insert(b.history + [tok], p, t) == Insert(b.history, p, t) + [tok];
  }

  /** The KEY token goes before the token at which the innermost simple key starts. */
  lemma InsertKey(b: Book, t: Token, tok: Token, after: Mark)
    requires Mid(b, tok, after)
    requires var key := b.keys[b.flowLevel];
      key.possible && key.tokenNumber < |b.history| && t == BareToken(KeyToken, key.mark)
    ensures Mid(b.(history := Insert(b.history, b.keys[b.flowLevel].tokenNumber, t)), tok, after)
  {
    hide Nest;
    var p := b.keys[b.flowLevel].tokenNumber;
    InsertPlain(b.history, p, t);
    PinnedInsert(b.history + [tok], p, t);
    assert Insert(b.history + [tok], p, t) == Insert(b.history, p, t) + [tok];
  }

  // ----- Reading the lexemes -----------------------------------------------------------

  /** The end of the stream starts a new line unless it is at the start of one. */
  function ForcedLine(m: Mark): Mark {
    if m.column != 0 then Mark(m.index, m.line + 1, 0) else m
  }

  function TokenOf(l: Lexeme): Token
    requires l.Lexeme?
  {
    if IsEnd(l) then BareToken(StreamEndToken, ForcedLine(l.token.start)) else l.token
  }

  /** The tokens that the first `n` lexemes stand for. */
  function Words(input: seq<Lexeme>, n: nat): seq<Token>
    requires n <= |input|
  {
    if n == 0 then [BareToken(StreamStartToken, Mark(0, 0, 0))]
    else Words(input, n - 1) + if input[n - 1].Lexeme? then [TokenOf(input[n - 1])] else []
  }

  predicate NoEnd(ts: seq<Token>) {
    forall k :: 0 <= k < |ts| ==> ts[k].typ != StreamEndToken
  }

  /** Synthetic tokens were added, none of them among the first `parsed` tokens. */
  predicate Grown(before: seq<Token>, after: seq<Token>, parsed: nat) {
    && parsed <= |before| && parsed <= |after| && after[..parsed] == before[..parsed]
    && Proper(after) == Proper(before) && (NoEnd(before) ==> NoEnd(after))
  }

  lemma InsertParts(ts: seq<Token>, p: nat, t: Token, parsed: nat)
    requires parsed <= p <= |ts|
    ensures Insert(ts, p, t)[..parsed] == ts[..parsed]
    ensures t.typ != StreamEndToken && NoEnd(ts) ==> NoEnd(Insert(ts, p, t))
  {
  }

  lemma GrownInsert(ts: seq<Token>, p: nat, t: Token, parsed: nat)
    requires parsed <= p <= |ts| && Synthetic(t)
    ensures Grown(ts, Insert(ts, p, t), parsed)
  {
    hide Proper, Insert;
    ProperInsert(ts, p, t);
    InsertParts(ts, p, t, parsed);
  }

  /** The token at `len - 1` moves to `from`. */
  function Rotated(ts: seq<Token>, from: nat, len: nat): (r: seq<Token>)
    requires from < len <= |ts|
    ensures |r| == |ts|
  {
    ts[..from] + [ts[len - 1]] + ts[from..len - 1] + ts[len..]
  }

  lemma RotatedIs(was: seq<Token>, now: seq<Token>, from: nat, len: nat)
    requires from < len <= |was| == |now| && now[from] == was[len - 1]
    requires forall k :: 0 <= k < from ==> now[k] == was[k]
    requires forall k :: from < k < len ==> now[k] == was[k - 1]
    requires forall k :: len <= k < |was| ==> now[k] == was[k]
    ensures now == Rotated(was, from, len)
  {
    assert now[..from] == was[..from];
    assert now[from + 1..len] == was[from..len - 1];
    assert now[len..] == was[len..];
    assert now == now[..from] + [now[from]] + now[from + 1..len] + now[len..];
  }

  /** On the queue, that is an insertion. */
  lemma RotatedQueue(ts: seq<Token>, head: nat, position: nat, len: nat)
    requires head + position < len <= |ts|
    ensures var queue, last := ts[head..len], len - head - 1;
      Rotated(ts, head + position, len)[head..len] == Insert(queue[..last], position, queue[last])
  {
    var queue, last := ts[head..len], len - head - 1;
    assert queue[..last] == ts[head..len - 1];
    assert queue[..last][..position] == ts[head..head + position];
    assert queue[..last][position..] == ts[head + position..len - 1];
  }

  lemma InsertTail(ts: seq<Token>, from: nat, p: nat, t: Token)
    requires from + p <= |ts|
    ensures Insert(ts, from + p, t)[from..] == Insert(ts[from..], p, t)
  {
  }

  lemma InsertLast(ts: seq<Token>, t: Token)
    ensures Insert(ts, |ts|, t) == ts + [t]
  {
  }

  lemma InsertedLength(ts: seq<Token>, p: nat, t: Token)
    requires p <= |ts|
    ensures |Insert(ts, p, t)| == |ts| + 1
  {
  }

  lemma LastMoved(queue: seq<Token>, ts: seq<Token>, parsed: nat, p: nat)
    requires parsed < |ts| && queue == ts[parsed..] && p < |queue|
    ensures var n, last := |ts| - 1, |queue| - 1;
      Insert(queue[..last], p, queue[last]) == Insert(ts[..n], parsed + p, ts[n])[parsed..]
  {
    var n, last := |ts| - 1, |queue| - 1;
    assert queue[..last] == ts[..n][parsed..];
    InsertTail(ts[..n], parsed, p, ts[n]);
  }

  ghost predicate Reading(b: Book, input: seq<Lexeme>, pos: nat) {
    && Rest(b) && pos <= |input| && Proper(b.history) == Words(input, pos)
    && (pos < |input| ==> Follows(b.mark, StartOf(input[pos])) && NoEnd(b.history))
    && (pos == |input| ==>
          && b.history[|b.history| - 1].typ == StreamEndToken && NoEnd(b.history[..|b.history| - 1])
          && KeysAbove(b.keys, b.mark.line) && (b.flowLevel == 0 ==> b.indent <= -1))
  }

  /** The scanner stands at the lexeme `l`. */
  ghost predicate Ready(b: Book, input: seq<Lexeme>, pos: nat, l: Lexeme) {
    && Rest(b) && ValidInput(input) && pos < |input| && input[pos] == l && b.mark == StartOf(l)
    && KeysOnLine(b.keys, b.mark.line) && (b.flowLevel == 0 ==> b.indent <= b.mark.column)
    && Proper(b.history) == Words(input, pos) && NoEnd(b.history)
  }

  lemma Read(b: Book, input: seq<Lexeme>, pos: nat, keyAllowed: bool)
    requires ValidInput(input) && pos < |input| && input[pos].Lexeme? && !IsEnd(input[pos])
    requires var l := input[pos];
      Mid(b, l.token, l.after) && (b.flowLevel == 0 && OnLine(b.keys[0], l.after.line) ==> !keyAllowed)
    requires Proper(b.history) == Words(input, pos) && NoEnd(b.history)
    ensures var l := input[pos];
      Reading(b.(history := b.history + [l.token], mark := l.after, keyAllowed := keyAllowed), input, pos + 1)
  {
    hide Nest, Rest;
    var l := input[pos];
    assert !Synthetic(l.token);
    Finish(b, l.token, l.after, keyAllowed);
    assert (b.history + [l.token])[..|b.history|] == b.history;
  }

  /** The lexeme `l` is about to be appended. */
  ghost predicate Pending(b: Book, input: seq<Lexeme>, pos: nat, l: Lexeme) {
    && ValidInput(input) && pos < |input| && input[pos] == l && l.Lexeme? && !IsEnd(l)
    && Mid(b, l.token, l.after)
    && Proper(b.history) == Words(input, pos) && NoEnd(b.history)
  }

  /** The innermost simple key, if there is one, denotes a token of the history. */
  predicate Sane(b: Book) {
    b.flowLevel < |b.keys|
    && (b.keys[b.flowLevel].possible ==> b.keys[b.flowLevel].tokenNumber <= |b.history|)
  }

  /** Nothing that was delivered has changed. */
  ghost predicate Kept(was: seq<Token>, now: seq<Token>, parsed: nat) {
    parsed <= |was| && parsed <= |now| && now[..parsed] == was[..parsed]
  }

  lemma KeptOn(a: seq<Token>, b: seq<Token>, c: seq<Token>, parsed: nat)
    requires Kept(a, b, parsed) && Kept(b, c, parsed)
    ensures parsed <= |c| && Kept(a, c, parsed) && (NoEnd(b[..parsed]) ==> NoEnd(c[..parsed]))
  {
  }

  lemma SaneHere(b: Book, input: seq<Lexeme>, pos: nat, l: Lexeme)
    requires Ready(b, input, pos, l)
    ensures Sane(b)
  {
    hide Nest;
  }

  lemma Prepare(b: Book, input: seq<Lexeme>, pos: nat, l: Lexeme)
    requires Ready(b, input, pos, l) && l.Lexeme? && !IsEnd(l)
    ensures |b.keys| == b.flowLevel + 1 && Pending(b, input, pos, l) && b.mark == l.token.start
    ensures b.flowLevel == 0 && b.keyAllowed ==> !b.keys[0].possible
    ensures Sane(b)
  {
    hide Nest;
    Begin(b, l.token, l.after);
  }

  lemma ForgetKey(b: Book, input: seq<Lexeme>, pos: nat, l: Lexeme)
    requires Ready(b, input, pos, l)
    ensures |b.keys| == b.flowLevel + 1
    ensures Ready(b.(keys := b.keys[b.flowLevel := b.keys[b.flowLevel].(possible := false)]), input, pos, l)
    ensures Sane(b)
  {
    hide Nest, Rest;
    SaneHere(b, input, pos, l);
    KeysPerLevel(b);
    LoseKey(b, b.flowLevel);
  }

  lemma KeysPerLevel(b: Book)
    requires Rest(b)
    ensures |b.keys| == b.flowLevel + 1
  {
    hide Nest;
  }

  lemma ForgetKeyLater(b: Book, input: seq<Lexeme>, pos: nat, l: Lexeme)
    requires Pending(b, input, pos, l)
    ensures |b.keys| == b.flowLevel + 1
    ensures Pending(b.(keys := b.keys[b.flowLevel := b.keys[b.flowLevel].(possible := false)]), input, pos, l)
  {
    hide Nest, ValidInput, Words, Proper, NoEnd;
  }

  /** A new flow level has no simple key yet. */
  lemma Deeper(b: Book, input: seq<Lexeme>, pos: nat, l: Lexeme)
    requires Pending(b, input, pos, l)
    ensures Pending(b.(keys := b.keys + [NO_KEY], flowLevel := b.flowLevel + 1), input, pos, l)
  {
    hide Nest, ValidInput, Words, Proper, NoEnd;
  }

  lemma Shallower(b: Book, input: seq<Lexeme>, pos: nat, l: Lexeme)
    requires Pending(b, input, pos, l)
    ensures |b.keys| == b.flowLevel + 1
    ensures b.flowLevel > 0 ==>
      Pending(b.(keys := b.keys[..|b.keys| - 1], flowLevel := b.flowLevel - 1), input, pos, l)
  {
    hide Nest, ValidInput, Words, Proper, NoEnd;
  }

  /** The lexeme may start a simple key. */
  lemma Save(b: Book, input: seq<Lexeme>, pos: nat, l: Lexeme, required: bool)
    requires Ready(b, input, pos, l) && l.Lexeme? && !IsEnd(l)
    ensures |b.keys| == b.flowLevel + 1
    ensures Pending(b, input, pos, l)
    ensures Pending(b.(keys := b.keys[b.flowLevel := Key(true, required, |b.history|, b.mark)]), input, pos, l)
    ensures Sane(b)
  {
    hide Nest;
    Prepare(b, input, pos, l);
    SaveKey(b, Key(true, required, |b.history|, b.mark), l.token, l.after);
  }

  /** A new line may start a simple key at the block level, where there is none left. */
  lemma AfterBreak(b: Book, input: seq<Lexeme>, pos: nat, l: Lexeme)
    requires Pending(b, input, pos, l) && l.leadingBlanks
    ensures |b.keys| > 0 && !OnLine(b.keys[0], l.after.line)
  {
    hide Nest;
  }

  lemma NoKeyAfterBreak(b: Book, input: seq<Lexeme>, pos: nat, l: Lexeme)
    requires Pending(b, input, pos, l)
    ensures b.flowLevel == 0 ==> |b.keys| > 0 && (OnLine(b.keys[0], l.after.line) ==> !l.leadingBlanks)
  {
    hide Pending;
    OneKeyPerLevel(b, input, pos, l);
    if l.leadingBlanks {
      AfterBreak(b, input, pos, l);
    }
  }

  lemma OneKeyPerLevel(b: Book, input: seq<Lexeme>, pos: nat, l: Lexeme)
    requires Pending(b, input, pos, l)
    ensures |b.keys| == b.flowLevel + 1 && l.Lexeme?
  {
    hide Nest;
  }

  /** A scanned lexeme may start a simple key. */
  lemma ScannedKey(b: Book, input: seq<Lexeme>, pos: nat, l: Lexeme)
    requires Ready(b, input, pos, l) && !l.Strange? && IsScanned(l.token.typ)
    ensures |b.keys| == b.flowLevel + 1 && Sane(b)
    ensures l.Lexeme? ==>
      && Pending(b, input, pos, l)
      && Pending(b.(keys := b.keys[b.flowLevel := Key(true, b.flowLevel == 0 && b.indent == b.mark.column,
                                                      |b.history|, b.mark)]), input, pos, l)
  {
    hide Ready, Pending;
    if l.Lexeme? {
      Save(b, input, pos, l, b.flowLevel == 0 && b.indent == b.mark.column);
    } else {
      ForgetKey(b, input, pos, l);
    }
  }

  lemma StandsAt(b: Book, input: seq<Lexeme>, pos: nat, l: Lexeme)
    requires Ready(b, input, pos, l)
    ensures b.mark == StartOf(l) && ValidLexeme(l) && |b.keys| == b.flowLevel + 1
    ensures Sane(b)
  {
    hide Nest;
  }

  lemma SimpleKeyHere(b: Book, input: seq<Lexeme>, pos: nat, l: Lexeme)
    requires Ready(b, input, pos, l) && b.flowLevel < |b.keys| && b.keys[b.flowLevel].possible
    ensures b.parsed <= b.keys[b.flowLevel].tokenNumber < |b.history| && b.keys[b.flowLevel].mark.line == b.mark.line
  {
    hide Nest;
  }

  /** Every block collection is closed and only the end of the stream is left. */
  ghost predicate Ending(b: Book, input: seq<Lexeme>, pos: nat) {
    && Rest(b) && KeysAbove(b.keys, b.mark.line) && ValidInput(input) && (b.flowLevel == 0 ==> b.indent <= -1)
    && pos + 1 == |input| && b.mark == ForcedLine(StartOf(input[pos]))
    && Proper(b.history) == Words(input, pos) && NoEnd(b.history)
  }

  lemma EndKey(b: Book, input: seq<Lexeme>, pos: nat)
    requires Ending(b, input, pos)
    ensures |b.keys| == b.flowLevel + 1
    ensures Ending(b.(keys := b.keys[b.flowLevel := b.keys[b.flowLevel].(possible := false)]), input, pos)
  {
    hide Nest, Rest;
    KeysPerLevel(b);
    LoseKey(b, b.flowLevel);
  }

  lemma EndStream(b: Book, input: seq<Lexeme>, pos: nat)
    requires Ending(b, input, pos)
    ensures Reading(b.(history := b.history + [BareToken(StreamEndToken, b.mark)], keyAllowed := false), input, pos + 1)
  {
    hide Nest, Rest, Mid;
    var t := BareToken(StreamEndToken, b.mark);
    Begin(b, t, b.mark);
    FinishEnd(b, t);
    assert (b.history + [t])[..|b.history|] == b.history;
  }

  lemma FinishEnd(b: Book, t: Token)
    requires Mid(b, t, b.mark)
    ensures Rest(b.(history := b.history + [t], keyAllowed := false))
  {
    hide Nest;
    Finish(b, t, b.mark, false);
    assert b.(history := b.history + [t], mark := b.mark, keyAllowed := false) ==
      b.(history := b.history + [t], keyAllowed := false);
  }

  /** A simple key lies on one line and has at most 1024 characters. */
  predicate IsStale(key: Key, mark: Mark) {
    key.possible && (key.mark.line < mark.line || key.mark.index + 1024 < mark.index)
  }

  function WithoutStale(keys: seq<Key>, mark: Mark): (r: seq<Key>)
    ensures |r| == |keys|
  {
    seq(|keys|, i requires 0 <= i < |keys| => if IsStale(keys[i], mark) then keys[i].(possible := false) else keys[i])
  }

  lemma StaleStep(keys: seq<Key>, mark: Mark, i: nat)
    requires i < |keys|
    ensures var key := if IsStale(keys[i], mark) then keys[i].(possible := false) else keys[i];
      WithoutStale(keys[..i + 1], mark) + keys[i + 1..] == (WithoutStale(keys[..i], mark) + keys[i..])[i := key]
  {
  }

  lemma ForgetStale(b: Book)
    requires Rest(b)
    ensures var keys := WithoutStale(b.keys, b.mark); Rest(b.(keys := keys)) && KeysOnLine(keys, b.mark.line)
  {
    hide Nest;
  }

  /** A key that is not stale is on this line, so nothing is closed after it. */
  lemma OnlyLater(b: Book)
    requires Rest(b)
    ensures |b.keys| == b.flowLevel + 1
    ensures b.flowLevel > 0 || b.indent <= b.mark.column || !OnLine(b.keys[0], b.mark.line)
  {
    hide Nest;
  }

  lemma StartedNest()
    ensures Nested(STARTED) && Proper(STARTED.history) == STARTED.history
  {
    var t := BareToken(StreamStartToken, Mark(0, 0, 0));
    assert STARTED.history == [] + [t];
    NestLast([], t);
    assert STARTED.history[..0] == [];
    assert ([] + [STARTED.indent])[1..] == [];
  }

  lemma StartedRest()
    ensures Rest(STARTED) && Proper(STARTED.history) == STARTED.history && NoEnd(STARTED.history)
  {
    hide Nest, Nested, Proper;
    StartedNest();
  }

  lemma Started(b: Book, input: seq<Lexeme>)
    requires ValidInput(input) && b == STARTED
    ensures Reading(b, input, 0)
  {
    hide ValidInput, Rest, Proper, NoEnd;
    NotEmpty(input);
    StartedRest();
  }

  lemma KeyFirst(b: Book, input: seq<Lexeme>, pos: nat, l: Lexeme) returns (b': Book)
    requires Pending(b, input, pos, l) && |b.keys| == b.flowLevel + 1 && b.keys[b.flowLevel].possible
    requires b.keys[b.flowLevel].tokenNumber < |b.history|
    ensures var key := b.keys[b.flowLevel];
      && b.parsed <= key.tokenNumber
      && b' == b.(history := Insert(b.history, key.tokenNumber, BareToken(KeyToken, key.mark)))
      && Kept(b.history, b'.history, b.parsed)
    ensures Pending(b', input, pos, l)
  {
    hide Nest, Proper, Insert, Words;
    var key := b.keys[b.flowLevel];
    var t := BareToken(KeyToken, key.mark);
    b' := b.(history := Insert(b.history, key.tokenNumber, t));
    InsertKey(b, t, l.token, l.after);
    GrownInsert(b.history, key.tokenNumber, t, b.parsed);
  }

  lemma MappingSecond(b: Book, input: seq<Lexeme>, pos: nat, l: Lexeme) returns (b': Book)
    requires Pending(b, input, pos, l) && |b.keys| == b.flowLevel + 1 && b.keys[b.flowLevel].possible
    requires b.keys[b.flowLevel].tokenNumber < |b.history| && b.keys[b.flowLevel].mark.line == b.mark.line
    ensures var key := b.keys[b.flowLevel];
      && b.parsed <= key.tokenNumber && Kept(b.history, b'.history, b.parsed)
      && b' == (if b.flowLevel > 0 || b.indent >= key.mark.column then b
                else b.(indents := b.indents + [b.indent], indent := key.mark.column,
                        history := Insert(b.history, key.tokenNumber, BareToken(BlockMappingStartToken, key.mark))))
               .(keys := b.keys[b.flowLevel := key.(possible := false)])
    ensures Pending(b', input, pos, l)
  {
    hide Nest, Proper, Insert, Words;
    var key := b.keys[b.flowLevel];
    var without := b.(keys := b.keys[b.flowLevel := key.(possible := false)]);
    ForgetKeyLater(b, input, pos, l);
    if b.flowLevel > 0 || b.indent >= key.mark.column {
      b' := without;
    } else {
      var t := BareToken(BlockMappingStartToken, key.mark);
      assert without.keys == [key.(possible := false)];
      OpenBlock(without, key.tokenNumber, t, key.(possible := false), l.token, l.after);
      GrownInsert(b.history, key.tokenNumber, t, b.parsed);
      b' := without.(indents := b.indents + [b.indent], indent := key.mark.column,
                     history := Insert(b.history, key.tokenNumber, t));
    }
  }

  lemma LastColumn(indents: seq<int>, indent: int)
    ensures indents != [] ==> var columns := (indents + [indent])[1..]; columns[|columns| - 1] == indent
  {
  }

  /** Whatever the block level has opened is closed at the end. */
  lemma Balanced(b: Book, input: seq<Lexeme>)
    requires Reading(b, input, |input|) && b.flowLevel == 0
    ensures Nest(b.history) == Some([])
  {
    NestIncreases(b.history);
    hide Nest;
    LastColumn(b.indents, b.indent);
  }

  lemma NotEmpty(input: seq<Lexeme>)
    requires ValidInput(input)
    ensures input != []
  {
  }

  lemma NoStaleKeys(b: Book, input: seq<Lexeme>, pos: nat)
    requires Reading(b, input, pos)
    ensures var keys := WithoutStale(b.keys, b.mark);
      Reading(b.(keys := keys), input, pos) && pos <= |input| && (pos == |input| ==> NoKeyAt(keys, b.parsed))
  {
    hide Nest, Words, Proper;
    ForgetStale(b);
  }

  /** The head of the queue is delivered. */
  lemma Delivered(b: Book, input: seq<Lexeme>, pos: nat)
    requires Reading(b, input, pos) && b.parsed < |b.history| && NoKeyAt(b.keys, b.parsed)
    ensures Reading(b.(parsed := b.parsed + 1), input, pos)
  {
    hide Nest, Words, Proper;
  }

  /** As long as the end of the stream is not delivered, the queue still holds it. */
  lemma EndInQueue(b: Book, input: seq<Lexeme>, pos: nat)
    requires Reading(b, input, pos) && NoEnd(b.history[..b.parsed])
    ensures pos <= |input| && (pos == |input| ==> b.parsed < |b.history|)
  {
    hide Nest, Words, Proper;
    assert b.history[..|b.history|] == b.history;
  }

  /** The end of the stream is delivered last. */
  lemma EndIsLast(b: Book, input: seq<Lexeme>, pos: nat)
    requires Reading(b, input, pos) && b.parsed < |b.history| && NoEnd(b.history[..b.parsed])
    ensures b.history[b.parsed].typ == StreamEndToken ==> pos == |input| && b.parsed + 1 == |b.history|
    ensures b.history[b.parsed].typ != StreamEndToken ==> NoEnd(b.history[..b.parsed + 1])
  {
    hide Nest, Words, Proper;
    var last := |b.history| - 1;
    assert b.parsed < last && pos == |input| ==> b.history[..last][b.parsed].typ != StreamEndToken;
    assert b.history[..b.parsed + 1] == b.history[..b.parsed] + [b.history[b.parsed]];
  }

  // ----- What every operation does -----------------------------------------------------

  datatype Step = Fine(book: Book) | Fault(problem: Problem)

  /** The text moves on to the lexeme; a new line in the block context allows a simple key. */
  function MovedTo(b: Book, l: Lexeme): Book {
    b.(mark := StartOf(l), keyAllowed := b.keyAllowed || (b.flowLevel == 0 && b.mark.line < StartOf(l).line))
  }

  function Popped(b: Book): Book
    requires b.indents != []
  {
    var top := |b.indents| - 1;
    b.(history := b.history + [BareToken(BlockEndToken, b.mark)], indent := b.indents[top], indents := b.indents[..top])
  }

  /** The block collections that are indented more than `column` are closed. */
  function Unrolled(b: Book, column: int): (r: Book)
    ensures r.keys == b.keys && r.flowLevel == b.flowLevel && r.mark == b.mark && r.keyAllowed == b.keyAllowed
    ensures |b.history| <= |r.history| && r.parsed == b.parsed
    decreases |b.indents|
  {
    if b.flowLevel > 0 || b.indent <= column || b.indents == [] then b else Unrolled(Popped(b), column)
  }

  /** A block collection is opened at `column` unless it is open already. */
  function Rolled(b: Book, column: int, number: nat, typ: TokenType, at: Mark): (r: Book)
    requires number <= |b.history|
    ensures r.keys == b.keys && r.flowLevel == b.flowLevel && r.mark == b.mark && r.keyAllowed == b.keyAllowed
    ensures |b.history| <= |r.history| && r.parsed == b.parsed
  {
    if b.flowLevel > 0 || b.indent >= column then b
    else b.(indents := b.indents + [b.indent], indent := column,
        history := Insert(b.history, number, BareToken(typ, at)))
  }

  lemma NotRolled(b: Book, column: int, typ: TokenType)
    requires b.flowLevel > 0
    ensures Rolled(b, column, |b.history|, typ, b.mark) == b
  {
  }

  predicate SomeRequired(keys: seq<Key>, mark: Mark) {
    exists i :: 0 <= i < |keys| && keys[i].required && IsStale(keys[i], mark)
  }

  const EXPECTED_COLON := ScannerError("could not find expected ':'")

  /** The scanner moves to the lexeme, forgets stale keys and closes what is indented more. */
  function ReadyFor(b: Book, l: Lexeme): (r: Step)
    ensures r.Fine? ==> r.book.parsed == b.parsed
  {
    var m := MovedTo(b, l);
    if SomeRequired(m.keys, m.mark) then Fault(EXPECTED_COLON)
    else Fine(Unrolled(m.(keys := WithoutStale(m.keys, m.mark)), m.mark.column))
  }

  /** The innermost simple key is given up; a required one is an error. */
  function KeyRemoved(b: Book): (r: Step)
    requires b.flowLevel < |b.keys|
    ensures r.Fine? ==> r.book.parsed == b.parsed
  {
    var key := b.keys[b.flowLevel];
    if key.possible && key.required then Fault(EXPECTED_COLON)
    else Fine(b.(keys := b.keys[b.flowLevel := key.(possible := false)]))
  }

  /** The lexeme may start a simple key, if one is allowed here. */
  function KeySaved(b: Book): (r: Step)
    requires b.flowLevel < |b.keys|
    ensures r.Fine? ==> r.book.parsed == b.parsed
  {
    var required := b.flowLevel == 0 && b.indent == b.mark.column;
    if required && !b.keyAllowed then Fault(ShouldNotHappen)
    else if !b.keyAllowed then Fine(b)
    else if KeyRemoved(b).Fault? then KeyRemoved(b)
    else Fine(b.(keys := b.keys[b.flowLevel := Key(true, required, |b.history|, b.mark)]))
  }

  function Taken(b: Book, l: Lexeme, allowed: bool): Book
    requires l.Lexeme?
  {
    b.(history := b.history + [l.token], mark := l.after, keyAllowed := allowed)
  }

  /** First the simple key is given up, then the token is taken. */
  function TakenAlone(b: Book, l: Lexeme, allowed: bool): (r: Step)
    requires b.flowLevel < |b.keys| && !l.Strange?
    ensures r.Fine? ==> r.book.parsed == b.parsed
  {
    match KeyRemoved(b)
    case Fault(p) => Fault(p)
    case Fine(b') => if l.Broken? then Fault(ScannerError(l.problem)) else Fine(Taken(b', l, allowed))
  }

  /** The end of the stream forces a new line and closes every block collection. */
  function StreamEnded(b: Book): (r: Step)
    requires b.flowLevel < |b.keys|
    ensures r.Fine? ==> r.book.parsed == b.parsed
  {
    match KeyRemoved(Unrolled(b.(mark := ForcedLine(b.mark)), -1))
    case Fault(p) => Fault(p)
    case Fine(b') => Fine(b'.(history := b'.history + [BareToken(StreamEndToken, b'.mark)], keyAllowed := false))
  }

  function FlowStarted(b: Book, l: Lexeme): (r: Step)
    requires b.flowLevel < |b.keys| && l.Lexeme?
    ensures r.Fine? ==> r.book.parsed == b.parsed
  {
    match KeySaved(b)
    case Fault(p) => Fault(p)
    case Fine(b') => Fine(Taken(b'.(keys := b'.keys + [NO_KEY], flowLevel := b'.flowLevel + 1), l, true))
  }

  function FlowEnded(b: Book, l: Lexeme): (r: Step)
    requires b.flowLevel < |b.keys| && l.Lexeme?
    ensures r.Fine? ==> r.book.parsed == b.parsed
  {
    match KeyRemoved(b)
    case Fault(p) => Fault(p)
    case Fine(b') =>
      Fine(Taken(if b'.flowLevel == 0 then b'
          else b'.(keys := b'.keys[..|b'.keys| - 1], flowLevel := b'.flowLevel - 1), l, false))
  }

  /** A block entry or an explicit key; in the block context it opens its collection. */
  function EntryTaken(b: Book, l: Lexeme, typ: TokenType, problem: string, allowed: bool): (r: Step)
    requires b.flowLevel < |b.keys| && l.Lexeme?
    ensures r.Fine? ==> r.book.parsed == b.parsed
  {
    if b.flowLevel == 0 && !b.keyAllowed then Fault(ScannerError(problem))
    else TakenAlone(Rolled(b, b.mark.column, |b.history|, typ, b.mark), l, allowed)
  }

  /** The KEY token, and before it the start of the mapping, go before the simple key. */
  function KeyInserted(b: Book): Book
    requires b.flowLevel < |b.keys| && b.keys[b.flowLevel].tokenNumber <= |b.history|
  {
    var key := b.keys[b.flowLevel];
    var b' := b.(history := Insert(b.history, key.tokenNumber, BareToken(KeyToken, key.mark)));
    Rolled(b', key.mark.column, key.tokenNumber, BlockMappingStartToken, key.mark)
    .(keys := b.keys[b.flowLevel := key.(possible := false)])
  }

  function ValueTaken(b: Book, l: Lexeme): (r: Step)
    requires b.flowLevel < |b.keys| &&
      (b.keys[b.flowLevel].possible ==> b.keys[b.flowLevel].tokenNumber <= |b.history|) && l.Lexeme?
    ensures r.Fine? ==> r.book.parsed == b.parsed
  {
    if b.keys[b.flowLevel].possible then Fine(Taken(KeyInserted(b), l, false))
    else if b.flowLevel > 0 then Fine(Taken(b, l, false))
    else if !b.keyAllowed then Fault(ScannerError("mapping values are not allowed in this context"))
    else Fine(Taken(Rolled(b, b.mark.column, |b.history|, BlockMappingStartToken, b.mark), l, true))
  }

  function ScannedTaken(b: Book, l: Lexeme): (r: Step)
    requires b.flowLevel < |b.keys| && !l.Strange?
    ensures r.Fine? ==> r.book.parsed == b.parsed
  {
    match KeySaved(b)
    case Fault(p) => Fault(p)
    case Fine(b') => if l.Broken? then Fault(ScannerError(l.problem)) else Fine(Taken(b', l, l.leadingBlanks))
  }

  /** The lexeme at which the scanner stands is fetched. */
  function Fetched(b: Book, l: Lexeme): (r: Step)
    requires Sane(b)
    ensures r.Fine? ==> r.book.parsed == b.parsed
  {
    if l.Strange? || (IsBlockScalar(l.token) && b.flowLevel > 0) then
      Fault(ScannerError("found character that cannot start any token"))
    else if IsEnd(l) then StreamEnded(b)
    else if AtLineStart(l.token.typ) then
      TakenAlone(Unrolled(b, -1), l, false)
    else if IsBlockScalar(l.token) then TakenAlone(b, l, true)
    else if IsScanned(l.token.typ) || l.Broken? then ScannedTaken(b, l)
    else
      match l.token.typ
      case FlowSequenceStartToken | FlowMappingStartToken => FlowStarted(b, l)
      case FlowSequenceEndToken | FlowMappingEndToken => FlowEnded(b, l)
      case FlowEntryToken => TakenAlone(b, l, true)
      case BlockEntryToken =>
        EntryTaken(b, l, BlockSequenceStartToken, "block sequence entries are not allowed in this context", true)
      case KeyToken =>
        EntryTaken(b, l, BlockMappingStartToken, "mapping keys are not allowed in this context", b.flowLevel == 0)
      case ValueToken => ValueTaken(b, l)
      case _ => Fine(b)
  }

  /** One call of `FetchNextToken`, after the start of the stream. */
  function FetchedNext(b: Book, l: Lexeme): (r: Step)
    ensures r.Fine? ==> r.book.parsed == b.parsed
  {
    match ReadyFor(b, l)
    case Fault(p) => Fault(p)
    case Fine(b') => if Sane(b') then Fetched(b', l) else Fine(b')
  }

  /** The scanner after a number of lexemes, or its first error. */
  datatype Scan = At(book: Book, pos: nat) | Failed(problem: Problem)

  /** Lexemes are fetched until no simple key can start at the head of the queue. */
  function Fetching(b: Book, input: seq<Lexeme>, pos: nat): (r: Scan)
    ensures r.At? ==> pos <= r.pos && r.book.parsed == b.parsed && (r.pos == pos ==> r.book.history == b.history)
    decreases |input| - pos
  {
    var stale := b.(keys := WithoutStale(b.keys, b.mark));
    if b.parsed < |b.history| && SomeRequired(b.keys, b.mark) then Failed(EXPECTED_COLON)
    else if (b.parsed < |b.history| && NoKeyAt(stale.keys, b.parsed)) || pos >= |input| then At(stale, pos)
    else
      var b' := if b.parsed < |b.history| then stale else b;
      match FetchedNext(b', input[pos])
      case Fault(p) => Failed(p)
      case Fine(next) => Fetching(next, input, pos + 1)
  }

  lemma FetchingIs(b: Book, input: seq<Lexeme>, pos: nat)
    ensures b.parsed < |b.history| && SomeRequired(b.keys, b.mark) ==> Fetching(b, input, pos) == Failed(EXPECTED_COLON)
    ensures b.parsed < |b.history| && !SomeRequired(b.keys, b.mark) ==>
      (var stale := b.(keys := WithoutStale(b.keys, b.mark));
       Fetching(b, input, pos) == if NoKeyAt(stale.keys, b.parsed) || pos >= |input| then At(stale, pos)
           else Next(stale, input, pos))
    ensures b.parsed >= |b.history| && pos < |input| ==> Fetching(b, input, pos) == Next(b, input, pos)
  {
    hide FetchedNext, NoKeyAt, SomeRequired, WithoutStale;
  }

  function Next(b: Book, input: seq<Lexeme>, pos: nat): Scan
    requires pos < |input|
  {
    match FetchedNext(b, input[pos])
    case Fault(p) => Failed(p)
    case Fine(next) => Fetching(next, input, pos + 1)
  }

  /** The tokens that are delivered, up to the end of the stream or an error. */
  function Scanning(b: Book, input: seq<Lexeme>, pos: nat): (seq<Token>, Problem)
    decreases |input| - pos, |b.history| - b.parsed
  {
    match Fetching(b, input, pos)
    case Failed(p) => ([], p)
    case At(b', pos') =>
      if b'.parsed >= |b'.history| || pos' > |input| then ([], NoProblem)
      else
        var t := b'.history[b'.parsed];
        if t.typ == StreamEndToken then ([t], NoProblem)
        else
          var rest := Scanning(b'.(parsed := b'.parsed + 1), input, pos');
          ([t] + rest.0, rest.1)
  }

  lemma ScanningIs(b: Book, input: seq<Lexeme>, pos: nat)
    ensures Fetching(b, input, pos).Failed? ==> Scanning(b, input, pos) == ([], Fetching(b, input, pos).problem)
    ensures Fetching(b, input, pos).At? ==>
      (var b', n := Fetching(b, input, pos).book, Fetching(b, input, pos).pos;
       b'.parsed < |b'.history| && n <= |input| ==>
         (var t := b'.history[b'.parsed];
          t.typ == StreamEndToken ==> Scanning(b, input, pos) == ([t], NoProblem)))
    ensures Fetching(b, input, pos).At? ==>
      (var b', n := Fetching(b, input, pos).book, Fetching(b, input, pos).pos;
       b'.parsed < |b'.history| && n <= |input| ==>
         (var t, rest := b'.history[b'.parsed], Scanning(b'.(parsed := b'.parsed + 1), input, n);
          t.typ != StreamEndToken ==> Scanning(b, input, pos) == ([t] + rest.0, rest.1)))
  {
    hide Fetching;
  }

  const STARTED := Book([NO_KEY], [], -1, 0, true, Mark(0, 0, 0), [BareToken(StreamStartToken, Mark(0, 0, 0))], 0)

  predicate NoKeyAt(keys: seq<Key>, n: nat) {
    forall i :: 0 <= i < |keys| && keys[i].possible ==> keys[i].tokenNumber != n
  }

  class Scanner {
    const input: seq<Lexeme>
    var pos: nat
    var mark: Mark
    var tokens: array<Token>
    var head: nat
    var len: nat
    var tokensParsed: nat
    var tokenAvailable: bool
    var streamStartProduced: bool
    var streamEndProduced: bool
    var keyAllowed: bool
    var keys: seq<Key>
    var indents: seq<int>
    var indent: int
    var flowLevel: nat
    var error: Problem
    ghost var history: seq<Token>

    ghost function Now(): Book
      reads `keys, `indents, `indent, `flowLevel, `keyAllowed, `mark, `history, `tokensParsed
    {
      Book(keys, indents, indent, flowLevel, keyAllowed, mark, history, tokensParsed)
    }

    /** The operation did what `step` says. */
    ghost predicate Did(step: Step, ok: bool)
      reads this
    {
      match step
      case Fine(b) => ok && Now() == b
      case Fault(p) => !ok && error == p
    }

    function Flags(): (bool, bool, bool)
      reads `tokenAvailable, `streamStartProduced, `streamEndProduced
    {
      (tokenAvailable, streamStartProduced, streamEndProduced)
    }

    /** The queue holds the tokens that have not been delivered. */
    ghost predicate Queue()
      reads `head, `len, `tokens, `tokensParsed, `history, tokens
    {
      head <= len <= tokens.Length && tokensParsed <= |history| && tokens[head..len] == history[tokensParsed..]
    }

    ghost predicate Valid()
      reads `keys, `indents, `indent, `flowLevel, `keyAllowed, `mark, `history, `tokensParsed,
        `head, `len, `tokens, `streamStartProduced, `pos, tokens
    {
      && Queue() && ValidInput(input)
      && if streamStartProduced then Reading(Now(), input, pos)
         else pos == 0 && Now() == Book([], [], 0, 0, false, Mark(0, 0, 0), [], 0)
    }

    constructor (input: seq<Lexeme>)
      requires ValidInput(input)
      ensures Valid() && this.input == input && fresh(tokens)
      ensures !streamStartProduced && !streamEndProduced && !tokenAvailable && error == NoProblem && tokensParsed == 0
    {
      this.input := input;
      pos, mark, head, len, tokensParsed := 0, Mark(0, 0, 0), 0, 0, 0;
      tokens := new Token[0];
      tokenAvailable, streamStartProduced, streamEndProduced, keyAllowed := false, false, false, false;
      keys, indents, indent, flowLevel := [], [], 0, 0;
      error := NoProblem;
      history := [];
    }

    method SetError(problem: Problem) returns (ok: bool)
      modifies `error
      ensures !ok && error == problem
    {
      error := problem;
      ok := false;
    }

    // ----- The queue -------------------------------------------------------------------

    /** `append` on a slice: the array is replaced by a larger one when it is full. */
    method AppendToken(t: Token)
      requires Queue()
      modifies `tokens, `len, `history, tokens
      ensures Queue() && (tokens == old(tokens) || fresh(tokens))
      ensures history == old(history) + [t] && len == old(len) + 1
    {
      ghost var queue := tokens[head..len];
      if len == tokens.Length {
        var larger := new Token[2 * len + 1];
        forall i | 0 <= i < len {
          larger[i] := tokens[i];
        }
        assert larger[head..len] == queue;
        tokens := larger;
      }
      tokens[len] := t;
      assert tokens[head..len] == queue;
      len := len + 1;
      history := history + [t];
      assert tokens[head..len] == queue + [t] == history[tokensParsed..];
    }

    /** Moves the queue to the front of a full array. */
    method Compact()
      requires Queue()
      modifies `head, `len, tokens
      ensures Queue()
    {
      if head > 0 && len == tokens.Length {
        ghost var queue := tokens[head..len];
        if head != len {
          forall i | 0 <= i < len - head {
            tokens[i] := tokens[head + i];
          }
        }
        assert forall k :: 0 <= k < |queue| ==> tokens[k] == queue[k];
        len := len - head;
        head := 0;
        assert tokens[head..len] == history[tokensParsed..];
      }
    }

    /** The tokens from `from` on move up by one, and the last one takes the place. */
    method MoveOver(from: nat)
      requires from < len <= tokens.Length
      modifies tokens
      ensures tokens[..] == Rotated(old(tokens[..]), from, len)
    {
      hide Rotated;
      ghost var was := tokens[..];
      var t := tokens[len - 1];
      forall i | from < i < len {
        tokens[i] := tokens[i - 1];
      }
      tokens[from] := t;
      RotatedIs(was, tokens[..], from, len);
    }

    /** The last token of the queue moves to `position`. */
    method MoveLast(position: nat)
      requires head < len <= tokens.Length && position < len - head
      modifies tokens
      ensures var queue, last := old(tokens[head..len]), len - head - 1;
        tokens[head..len] == Insert(queue[..last], position, queue[last])
    {
      hide Insert, Rotated;
      ghost var was := tokens[..];
      assert tokens[head..len] == was[head..len];
      RotatedQueue(was, head, position, len);
      MoveOver(head + position);
      assert tokens[head..len] == tokens[..][head..len];
    }

    /** Inserts a token at a position of the queue, or at its end. */
    method InsertToken(position: int, t: Token)
      requires Queue() && position <= |history| - tokensParsed
      modifies `tokens, `head, `len, `history, tokens
      ensures Queue() && (tokens == old(tokens) || fresh(tokens))
      ensures history == Insert(old(history), if position < 0 then |old(history)| else tokensParsed + position, t)
    {
      hide Insert;
      Compact();
      AppendToken(t);
      InsertLast(old(history), t);
      if position < 0 {
        return;
      }
      assert history[..|history| - 1] == old(history);
      LastTo(position);
    }

    /** The token appended last moves to its position, in the queue and in the history. */
    method LastTo(position: nat)
      requires Queue() && position < |history| - tokensParsed
      modifies `history, tokens
      ensures Queue()
      ensures var n := |old(history)| - 1;
        history == Insert(old(history)[..n], tokensParsed + position, old(history)[n])
    {
      hide Insert;
      ghost var all := history;
      assert |tokens[head..len]| == len - head;
      LastMoved(tokens[head..len], all, tokensParsed, position);
      InsertedLength(all[..|all| - 1], tokensParsed + position, all[|all| - 1]);
      MoveLast(position);
      history := Insert(all[..|all| - 1], tokensParsed + position, all[|all| - 1]);
    }

    // ----- Simple keys and indentation -------------------------------------------------

    /** Forgets the keys that cannot be simple keys any more; a required one is an error. */
    method StaleSimpleKeys() returns (ok: bool)
      requires error == NoProblem
      modifies `keys, `error
      ensures ok == (error == NoProblem) == forall i :: 0 <= i < |old(keys)| ==>
        !(old(keys)[i].required && IsStale(old(keys)[i], mark))
      ensures ok ==> keys == WithoutStale(old(keys), mark)
      ensures !ok ==> error == EXPECTED_COLON
    {
      var i := 0;
      ok := true;
      while i < |keys|
        invariant i <= |keys| == |old(keys)| && error == NoProblem
        invariant keys == WithoutStale(old(keys)[..i], mark) + old(keys)[i..]
        invariant forall j :: 0 <= j < i ==> !(old(keys)[j].required && IsStale(old(keys)[j], mark))
      {
        assert keys[i] == old(keys)[i];
        var key := keys[i];
        if IsStale(key, mark) {
          if key.required {
            ok := SetError(EXPECTED_COLON);
            return;
          }
          keys := keys[i := key.(possible := false)];
        }
        StaleStep(old(keys), mark, i);
        i := i + 1;
      }
    }

    method RemoveSimpleKey() returns (ok: bool)
      requires error == NoProblem && |keys| == flowLevel + 1
      modifies `keys, `error
      ensures ok == (error == NoProblem) == !(old(keys)[flowLevel].possible && old(keys)[flowLevel].required)
      ensures ok ==> keys == old(keys)[flowLevel := old(keys)[flowLevel].(possible := false)]
      ensures Did(KeyRemoved(old(Now())), ok)
    {
      var key := keys[flowLevel];
      if key.possible && key.required {
        ok := SetError(EXPECTED_COLON);
        return;
      }
      keys := keys[flowLevel := key.(possible := false)];
      ok := true;
    }

    /** A required key that is not allowed is the case the source calls impossible. */
    method SaveSimpleKey() returns (ok: bool)
      requires Queue() && error == NoProblem && |keys| == flowLevel + 1
      modifies `keys, `error
      ensures ok == (error == NoProblem)
      ensures error == ShouldNotHappen <==> flowLevel == 0 && indent == mark.column && !keyAllowed
      ensures ok ==> keys == if keyAllowed
          then old(keys)[flowLevel := Key(true, flowLevel == 0 && indent == mark.column, |history|, mark)]
          else old(keys)
      ensures Did(KeySaved(old(Now())), ok)
    {
      var required := flowLevel == 0 && indent == mark.column;
      if required && !keyAllowed {
        ok := SetError(ShouldNotHappen);
        return;
      }
      ok := true;
      if keyAllowed {
        assert |tokens[head..len]| == |history| - tokensParsed;
        var key := Key(true, required, tokensParsed + (len - head), mark);
        ok := RemoveSimpleKey();
        if !ok {
          return;
        }
        keys := keys[|keys| - 1 := key];
      }
    }

    /** Opens a block collection at `column` unless it is already open; a negative `number`
      * puts its token at the end of the queue. */
    method RollIndent(column: int, number: int, typ: TokenType, at: Mark)
      requires Queue() && number <= |history| && (number >= 0 ==> tokensParsed <= number)
      modifies `indents, `indent, `tokens, `head, `len, `history, tokens
      ensures Queue() && (tokens == old(tokens) || fresh(tokens))
      ensures Now() == if flowLevel > 0 || old(indent) >= column then old(Now())
        else old(Now()).(indents := old(indents) + [old(indent)], indent := column,
                         history := Insert(old(history), if number < 0 then |old(history)|
                             else number, BareToken(typ, at)))
    {
      if flowLevel > 0 {
        return;
      }
      if indent < column {
        indents := indents + [indent];
        indent := column;
        InsertToken(if number > -1 then number - tokensParsed else number, BareToken(typ, at));
      }
    }

    method PopIndent()
      requires Queue() && Rest(Now()) && flowLevel == 0 && indent > -1 && |keys| > 0 && !OnLine(keys[0], mark.line)
      modifies `indents, `indent, `tokens, `head, `len, `history, tokens
      ensures Queue() && (tokens == old(tokens) || fresh(tokens))
      ensures Rest(Now()) && Now() == old(Now()).(indents := indents, indent := indent, history := history)
      ensures old(indents) != [] && Now() == Popped(old(Now()))
      ensures Grown(old(history), history, tokensParsed)
    {
      hide Rest, Proper, Insert;
      CloseBlock(Now());
      InsertLast(history, BareToken(BlockEndToken, mark));
      GrownInsert(history, |history|, BareToken(BlockEndToken, mark), tokensParsed);
      InsertToken(-1, BareToken(BlockEndToken, mark));
      indent := indents[|indents| - 1];
      indents := indents[..|indents| - 1];
    }

    /** Closes all block collections at the start of a line. */
    method UnrollAll(l: Lexeme)
      requires Queue() && Ready(Now(), input, pos, l) && mark.column == 0
      modifies `indents, `indent, `tokens, `head, `len, `history, tokens
      ensures Queue() && (tokens == old(tokens) || fresh(tokens))
      ensures Ready(Now(), input, pos, l)
      ensures Kept(old(history), history, tokensParsed)
      ensures Now() == Unrolled(old(Now()), -1)
    {
      hide Nest, Words, Proper, Unrolled;
      UnrollIndent(-1);
    }

    /** Closes the block collections that are indented more than `column`. */
    method UnrollIndent(column: int)
      requires Queue() && Rest(Now()) && column >= -1
      requires flowLevel > 0 || indent <= column || !OnLine(keys[0], mark.line)
      modifies `indents, `indent, `tokens, `head, `len, `history, tokens
      ensures Queue() && (tokens == old(tokens) || fresh(tokens))
      ensures Rest(Now()) && Now() == old(Now()).(indents := indents, indent := indent, history := history)
      ensures flowLevel == 0 ==> indent <= column
      ensures Grown(old(history), history, tokensParsed)
      ensures Now() == Unrolled(old(Now()), column)
    {
      if flowLevel > 0 {
        return;
      }
      assert |keys| > 0;
      hide Rest, Proper;
      while indent > column
        invariant |keys| > 0 && Queue() && (tokens == old(tokens) || fresh(tokens))
        invariant Rest(Now()) && Now() == old(Now()).(indents := indents, indent := indent, history := history)
        invariant indent <= column || !OnLine(keys[0], mark.line)
        invariant Grown(old(history), history, tokensParsed)
        invariant Unrolled(old(Now()), column) == Unrolled(Now(), column)
        decreases |indents|
      {
        PopIndent();
      }
    }

    // ----- Fetching one token ----------------------------------------------------------

    /** Appends the token of the lexeme and moves past it. */
    method TakeToken(l: Lexeme, allowed: bool)
      requires Queue() && Pending(Now(), input, pos, l)
      requires flowLevel == 0 ==> |keys| > 0 && (OnLine(keys[0], l.after.line) ==> !allowed)
      modifies `keyAllowed, `pos, `mark, `tokens, `head, `len, `history, tokens
      ensures Queue() && (tokens == old(tokens) || fresh(tokens))
      ensures Reading(Now(), input, pos) && pos == old(pos) + 1
      ensures Kept(old(history), history, tokensParsed)
      ensures l.Lexeme? && Now() == Taken(old(Now()), l, allowed)
    {
      hide Mid, Nest, Words, Proper, Rest, Insert, ValidInput, NoEnd, Reading;
      InsertLast(history, l.token);
      Read(Now(), input, pos, allowed);
      InsertToken(-1, l.token);
      mark := l.after;
      keyAllowed := allowed;
      pos := pos + 1;
    }

    /** Opens a block collection at the lexeme unless there is one at its column. */
    method OpenBlockHere(l: Lexeme, typ: TokenType)
      requires Queue() && Ready(Now(), input, pos, l) && l.Lexeme? && !IsEnd(l)
      requires flowLevel == 0 && keyAllowed && IsBlockStart(typ)
      modifies `indents, `indent, `tokens, `head, `len, `history, tokens
      ensures Queue() && (tokens == old(tokens) || fresh(tokens))
      ensures Pending(Now(), input, pos, l) && |keys| == 1 && !keys[0].possible
      ensures Kept(old(history), history, tokensParsed)
      ensures Now() == Rolled(old(Now()), mark.column, |old(history)|, typ, mark)
    {
      hide Nest, Words, Proper, Insert, Ready, Rest;
      Prepare(Now(), input, pos, l);
      GrownInsert(history, |history|, BareToken(typ, mark), tokensParsed);
      if indent < mark.column {
        OpenBlock(Now(), |history|, BareToken(typ, mark), keys[0], l.token, l.after);
      }
      assert keys == [keys[0]];
      RollIndent(mark.column, -1, typ, mark);
    }

    /** Inserts the KEY token, and the token that opens the mapping, before the token at which
      * the simple key starts. */
    method InsertSimpleKey(l: Lexeme)
      requires Queue() && Ready(Now(), input, pos, l) && l.Lexeme? && !IsEnd(l)
      requires flowLevel < |keys| && keys[flowLevel].possible
      modifies `keys, `indents, `indent, `tokens, `head, `len, `history, tokens
      ensures Queue() && (tokens == old(tokens) || fresh(tokens))
      ensures Pending(Now(), input, pos, l) && |keys| == flowLevel + 1 && !keys[flowLevel].possible
      ensures Kept(old(history), history, tokensParsed)
      ensures Sane(old(Now())) && Now() == KeyInserted(old(Now()))
    {
      hide Nest, Words, Proper, Insert, Ready, Rest, Mid, Queue, ValidInput, NoEnd;
      Prepare(Now(), input, pos, l);
      SimpleKeyHere(Now(), input, pos, l);
      var key := keys[flowLevel];
      ghost var first := KeyFirst(Now(), input, pos, l);
      InsertToken(key.tokenNumber - tokensParsed, BareToken(KeyToken, key.mark));
      ghost var second := MappingSecond(Now(), input, pos, l);
      RollIndent(key.mark.column, key.tokenNumber, BlockMappingStartToken, key.mark);
      keys := keys[flowLevel := key.(possible := false)];
    }

    method TakeEnd()
      requires Queue() && Ending(Now(), input, pos)
      modifies `keyAllowed, `pos, `tokens, `head, `len, `history, tokens
      ensures Queue() && (tokens == old(tokens) || fresh(tokens))
      ensures Reading(Now(), input, pos) && pos == old(pos) + 1
      ensures Kept(old(history), history, tokensParsed)
      ensures Now() == old(Now()).(history := old(history) + [BareToken(StreamEndToken, mark)], keyAllowed := false)
    {
      hide Reading, Ending, Rest, Nest, Words, Insert, Proper;
      EndStream(Now(), input, pos);
      keyAllowed := false;
      InsertLast(history, BareToken(StreamEndToken, mark));
      InsertToken(-1, BareToken(StreamEndToken, mark));
      pos := pos + 1;
    }

    /** Forces a new line and closes every block collection. */
    method CloseStream(l: Lexeme)
      requires Queue() && Ready(Now(), input, pos, l) && IsEnd(l)
      modifies `mark, `indents, `indent, `tokens, `head, `len, `history, tokens
      ensures Queue() && (tokens == old(tokens) || fresh(tokens))
      ensures Ending(Now(), input, pos)
      ensures Kept(old(history), history, tokensParsed)
      ensures Now() == Unrolled(old(Now()).(mark := ForcedLine(old(mark))), -1)
    {
      hide Nest, Words, Proper, Unrolled;
      MoveOn(Now(), ForcedLine(mark), keyAllowed);
      if mark.column != 0 {
        mark := Mark(mark.index, mark.line + 1, 0);
      }
      UnrollIndent(-1);
    }

    /** The end of the stream closes every block collection. */
    method FetchStreamEnd(l: Lexeme) returns (ok: bool)
      requires Queue() && error == NoProblem && Ready(Now(), input, pos, l) && IsEnd(l)
      modifies this, tokens
      ensures Queue() && (tokens == old(tokens) || fresh(tokens)) && Flags() == old(Flags())
      ensures ok == (error == NoProblem)
      ensures ok ==> pos == old(pos) + 1 && Reading(Now(), input, pos)
      ensures ok ==> tokensParsed == old(tokensParsed) && Kept(old(history), history, tokensParsed)
      ensures Sane(old(Now())) && Did(StreamEnded(old(Now())), ok)
    {
      hide Reading, Ending, Rest, Nest, Words, Proper, Ready, Taken, Rolled, Unrolled, KeyInserted, ValidInput,
        ForcedLine, BareToken, Queue, Flags;
      SaneHere(Now(), input, pos, l);
      CloseStream(l);
      EndKey(Now(), input, pos);
      ok := RemoveSimpleKey();
      if !ok {
        return;
      }
      TakeEnd();
    }

    /** Directives and document indicators end the block collections. */
    method FetchAtLineStart(l: Lexeme) returns (ok: bool)
      requires Queue() && error == NoProblem && Ready(Now(), input, pos, l) && !l.Strange? && AtLineStart(l.token.typ)
      modifies this, tokens
      ensures Queue() && (tokens == old(tokens) || fresh(tokens)) && Flags() == old(Flags())
      ensures ok == (error == NoProblem)
      ensures ok ==> pos == old(pos) + 1 && Reading(Now(), input, pos)
      ensures ok ==> tokensParsed == old(tokensParsed) && Kept(old(history), history, tokensParsed)
      ensures Sane(old(Now())) && Did(TakenAlone(Unrolled(old(Now()), -1), l, false), ok)
    {
      hide Ready, Reading, Pending, Rest, Nest, Words, Proper, Insert, Taken, Rolled, Unrolled, KeyInserted,
        ValidInput, ForcedLine, BareToken, Queue, Flags;
      StandsAt(Now(), input, pos, l);
      UnrollAll(l);
      ForgetKey(Now(), input, pos, l);
      ok := RemoveSimpleKey();
      if !ok {
        return;
      }
      if l.Broken? {
        ok := SetError(ScannerError(l.problem));
        return;
      }
      Prepare(Now(), input, pos, l);
      TakeToken(l, false);
    }

    /** A flow collection may start a simple key, and its first entry may. */
    method FetchFlowStart(l: Lexeme) returns (ok: bool)
      requires Queue() && error == NoProblem && Ready(Now(), input, pos, l) && l.Lexeme? &&
        (l.token.typ == FlowSequenceStartToken || l.token.typ == FlowMappingStartToken)
      modifies this, tokens
      ensures Queue() && (tokens == old(tokens) || fresh(tokens)) && Flags() == old(Flags())
      ensures ok == (error == NoProblem)
      ensures ok ==> pos == old(pos) + 1 && Reading(Now(), input, pos)
      ensures ok ==> tokensParsed == old(tokensParsed) && Kept(old(history), history, tokensParsed)
      ensures Sane(old(Now())) && Did(FlowStarted(old(Now()), l), ok)
    {
      hide Ready, Reading, Pending, Rest, Nest, Words, Proper, Insert, Kept, Taken, Rolled, Unrolled, KeyInserted,
        ValidInput, ForcedLine, BareToken, Queue, Flags;
      Save(Now(), input, pos, l, flowLevel == 0 && indent == mark.column);
      ok := SaveSimpleKey();
      if !ok {
        return;
      }
      Deeper(Now(), input, pos, l);
      IncreaseFlowLevel();
      TakeToken(l, true);
    }

    method IncreaseFlowLevel()
      modifies `flowLevel, `keys
      ensures Now() == old(Now()).(keys := old(keys) + [NO_KEY], flowLevel := old(flowLevel) + 1)
    {
      keys := keys + [NO_KEY];
      flowLevel := flowLevel + 1;
    }

    /** The end of a flow collection; at the block level there is no flow level to leave. */
    method FetchFlowEnd(l: Lexeme) returns (ok: bool)
      requires Queue() && error == NoProblem && Ready(Now(), input, pos, l) && l.Lexeme? &&
        (l.token.typ == FlowSequenceEndToken || l.token.typ == FlowMappingEndToken)
      modifies this, tokens
      ensures Queue() && (tokens == old(tokens) || fresh(tokens)) && Flags() == old(Flags())
      ensures ok == (error == NoProblem)
      ensures ok ==> pos == old(pos) + 1 && Reading(Now(), input, pos)
      ensures ok ==> tokensParsed == old(tokensParsed) && Kept(old(history), history, tokensParsed)
      ensures Sane(old(Now())) && Did(FlowEnded(old(Now()), l), ok)
    {
      hide Ready, Reading, Pending, Rest, Nest, Words, Proper, Insert, Kept, Taken, Rolled, Unrolled, KeyInserted,
        ValidInput, ForcedLine, BareToken, Queue, Flags;
      ForgetKey(Now(), input, pos, l);
      ok := RemoveSimpleKey();
      if !ok {
        return;
      }
      Prepare(Now(), input, pos, l);
      Shallower(Now(), input, pos, l);
      DecreaseFlowLevel();
      TakeToken(l, false);
    }

    method DecreaseFlowLevel()
      requires flowLevel > 0 ==> keys != []
      modifies `flowLevel, `keys
      ensures Now() == if old(flowLevel) == 0 then old(Now())
        else old(Now()).(keys := old(keys)[..|old(keys)| - 1], flowLevel := old(flowLevel) - 1)
    {
      if flowLevel > 0 {
        flowLevel := flowLevel - 1;
        keys := keys[..|keys| - 1];
      }
    }

    /** A simple key may follow the separator of a flow collection. */
    method FetchFlowEntry(l: Lexeme) returns (ok: bool)
      requires Queue() && error == NoProblem && Ready(Now(), input, pos, l) && l.Lexeme? &&
        l.token.typ == FlowEntryToken
      modifies this, tokens
      ensures Queue() && (tokens == old(tokens) || fresh(tokens)) && Flags() == old(Flags())
      ensures ok == (error == NoProblem)
      ensures ok ==> pos == old(pos) + 1 && Reading(Now(), input, pos)
      ensures ok ==> tokensParsed == old(tokensParsed) && Kept(old(history), history, tokensParsed)
      ensures Sane(old(Now())) && Did(TakenAlone(old(Now()), l, true), ok)
    {
      hide Ready, Reading, Pending, Rest, Nest, Words, Proper, Insert, Kept, Taken, Rolled, Unrolled, KeyInserted,
        ValidInput, ForcedLine, BareToken, Queue, Flags;
      ForgetKey(Now(), input, pos, l);
      ok := RemoveSimpleKey();
      if !ok {
        return;
      }
      Prepare(Now(), input, pos, l);
      TakeToken(l, true);
    }

    /** An entry of a block sequence, which it opens if needed. */
    method FetchBlockEntry(l: Lexeme) returns (ok: bool)
      requires Queue() && error == NoProblem && Ready(Now(), input, pos, l) && l.Lexeme? &&
        l.token.typ == BlockEntryToken
      modifies this, tokens
      ensures Queue() && (tokens == old(tokens) || fresh(tokens)) && Flags() == old(Flags())
      ensures ok == (error == NoProblem)
      ensures ok ==> pos == old(pos) + 1 && Reading(Now(), input, pos)
      ensures ok ==> tokensParsed == old(tokensParsed) && Kept(old(history), history, tokensParsed)
      ensures Sane(old(Now())) &&
        Did(EntryTaken(old(Now()), l, BlockSequenceStartToken,
        "block sequence entries are not allowed in this context", true), ok)
    {
      hide Ready, Reading, Pending, Rest, Nest, Words, Proper, Insert, Taken, Rolled, Unrolled, KeyInserted,
        ValidInput, ForcedLine, BareToken, Queue, Flags;
      SaneHere(Now(), input, pos, l);
      if flowLevel == 0 {
        if !keyAllowed {
          ok := SetError(ScannerError("block sequence entries are not allowed in this context"));
          return;
        }
        OpenBlockHere(l, BlockSequenceStartToken);
      } else {
        NotRolled(Now(), mark.column, BlockSequenceStartToken);
        Prepare(Now(), input, pos, l);
      }
      ForgetKeyLater(Now(), input, pos, l);
      ok := RemoveSimpleKey();
      if !ok {
        return;
      }
      TakeToken(l, true);
    }

    /** An explicit key of a block or flow mapping. */
    method FetchKey(l: Lexeme) returns (ok: bool)
      requires Queue() && error == NoProblem && Ready(Now(), input, pos, l) && l.Lexeme? && l.token.typ == KeyToken
      modifies this, tokens
      ensures Queue() && (tokens == old(tokens) || fresh(tokens)) && Flags() == old(Flags())
      ensures ok == (error == NoProblem)
      ensures ok ==> pos == old(pos) + 1 && Reading(Now(), input, pos)
      ensures ok ==> tokensParsed == old(tokensParsed) && Kept(old(history), history, tokensParsed)
      ensures Sane(old(Now())) &&
        Did(EntryTaken(old(Now()), l, BlockMappingStartToken, "mapping keys are not allowed in this context",
        flowLevel == 0), ok)
    {
      hide Ready, Reading, Pending, Rest, Nest, Words, Proper, Insert, Taken, Rolled, Unrolled, KeyInserted,
        ValidInput, ForcedLine, BareToken, Queue, Flags;
      SaneHere(Now(), input, pos, l);
      if flowLevel == 0 {
        if !keyAllowed {
          ok := SetError(ScannerError("mapping keys are not allowed in this context"));
          return;
        }
        OpenBlockHere(l, BlockMappingStartToken);
      } else {
        NotRolled(Now(), mark.column, BlockMappingStartToken);
        Prepare(Now(), input, pos, l);
      }
      ForgetKeyLater(Now(), input, pos, l);
      ok := RemoveSimpleKey();
      if !ok {
        return;
      }
      TakeToken(l, flowLevel == 0);
    }

    /** A value: the token that may have started a simple key before it did. */
    method FetchValue(l: Lexeme) returns (ok: bool)
      requires Queue() && error == NoProblem && Ready(Now(), input, pos, l) && l.Lexeme? && l.token.typ == ValueToken
      modifies this, tokens
      ensures Queue() && (tokens == old(tokens) || fresh(tokens)) && Flags() == old(Flags())
      ensures ok == (error == NoProblem)
      ensures ok ==> pos == old(pos) + 1 && Reading(Now(), input, pos)
      ensures ok ==> tokensParsed == old(tokensParsed) && Kept(old(history), history, tokensParsed)
      ensures Sane(old(Now())) && Did(ValueTaken(old(Now()), l), ok)
    {
      hide Ready, Reading, Pending, Rest, Nest, Words, Proper, Insert, Taken, Rolled, Unrolled, KeyInserted,
        ValidInput, ForcedLine, BareToken, Queue, Flags;
      Prepare(Now(), input, pos, l);
      var allowed := false;
      if keys[flowLevel].possible {
        InsertSimpleKey(l);
      } else {
        if flowLevel == 0 {
          if !keyAllowed {
            ok := SetError(ScannerError("mapping values are not allowed in this context"));
            return;
          }
          OpenBlockHere(l, BlockMappingStartToken);
        }
        allowed := flowLevel == 0;
      }
      TakeToken(l, allowed);
      ok := true;
    }

    /** A literal or folded scalar cannot be a simple key, but one may follow it. */
    method FetchBlockScalar(l: Lexeme) returns (ok: bool)
      requires Queue() && error == NoProblem && Ready(Now(), input, pos, l) && !l.Strange? &&
        IsBlockScalar(l.token) && flowLevel == 0
      modifies this, tokens
      ensures Queue() && (tokens == old(tokens) || fresh(tokens)) && Flags() == old(Flags())
      ensures ok == (error == NoProblem)
      ensures ok ==> pos == old(pos) + 1 && Reading(Now(), input, pos)
      ensures ok ==> tokensParsed == old(tokensParsed) && Kept(old(history), history, tokensParsed)
      ensures Sane(old(Now())) && Did(TakenAlone(old(Now()), l, true), ok)
    {
      hide Ready, Reading, Pending, Rest, Nest, Words, Proper, Insert, Kept, Taken, Rolled, Unrolled, KeyInserted,
        ValidInput, ForcedLine, BareToken, Queue, Flags;
      ForgetKey(Now(), input, pos, l);
      ok := RemoveSimpleKey();
      if !ok {
        return;
      }
      if l.Broken? {
        ok := SetError(ScannerError(l.problem));
        return;
      }
      Prepare(Now(), input, pos, l);
      TakeToken(l, true);
    }

    /** An anchor, an alias, a tag, a quoted or a plain scalar may be a simple key. */
    method FetchScanned(l: Lexeme) returns (ok: bool)
      requires Queue() && error == NoProblem && Ready(Now(), input, pos, l) && !l.Strange? &&
        IsScanned(l.token.typ) && !AtLineStart(l.token.typ)
      modifies this, tokens
      ensures Queue() && (tokens == old(tokens) || fresh(tokens)) && Flags() == old(Flags())
      ensures ok == (error == NoProblem)
      ensures ok ==> pos == old(pos) + 1 && Reading(Now(), input, pos)
      ensures ok ==> tokensParsed == old(tokensParsed) && Kept(old(history), history, tokensParsed)
      ensures Sane(old(Now())) && Did(ScannedTaken(old(Now()), l), ok)
    {
      hide Ready, Reading, Pending, Rest, Nest, Words, Proper, Insert, Kept, Taken, Rolled, Unrolled, KeyInserted,
        ValidInput, ForcedLine, BareToken, Queue, Flags;
      ScannedKey(Now(), input, pos, l);
      ok := SaveSimpleKey();
      if !ok {
        return;
      }
      if l.Broken? {
        ok := SetError(ScannerError(l.problem));
        return;
      }
      NoKeyAfterBreak(Now(), input, pos, l);
      TakeToken(l, l.leadingBlanks);
    }

    /** Starts the stream; the block level has no simple key yet. */
    method FetchStreamStart()
      requires Valid() && error == NoProblem && !streamStartProduced
      modifies this, tokens
      ensures Queue() && (tokens == old(tokens) || fresh(tokens)) && streamStartProduced && error == NoProblem
      ensures pos == 0 && Reading(Now(), input, 0) && tokensParsed == 0
      ensures tokenAvailable == old(tokenAvailable) && streamEndProduced == old(streamEndProduced)
      ensures Now() == STARTED
    {
      hide Reading, Insert, ValidInput;
      InsertLast([], BareToken(StreamStartToken, mark));
      indent := -1;
      keys := keys + [NO_KEY];
      keyAllowed := true;
      streamStartProduced := true;
      ghost var t := BareToken(StreamStartToken, mark);
      InsertToken(-1, BareToken(StreamStartToken, mark));
      assert history == [t];
      Started(Now(), input);
    }

    /** Moves to the next lexeme; in the block context a line break allows a simple key. */
    method ScanToNextToken(l: Lexeme)
      requires Reading(Now(), input, pos) && pos < |input| && input[pos] == l
      modifies `mark, `keyAllowed
      ensures Rest(Now()) && mark == StartOf(l) && Now() == MovedTo(old(Now()), l)
    {
      hide Nest, Words;
      var newLine := mark.line < StartOf(l).line;
      MoveOn(Now(), StartOf(l), keyAllowed || (newLine && flowLevel == 0));
      mark := StartOf(l);
      if newLine && flowLevel == 0 {
        keyAllowed := true;
      }
    }

    /** Moves to the next lexeme, forgets stale keys and closes what is indented more. */
    method GetReady(l: Lexeme) returns (ok: bool)
      requires Queue() && error == NoProblem && ValidInput(input)
      requires Reading(Now(), input, pos) && pos < |input| && input[pos] == l
      modifies `mark, `keyAllowed, `keys, `indents, `indent, `error, `tokens, `head, `len, `history, tokens
      ensures Queue() && (tokens == old(tokens) || fresh(tokens))
      ensures ok == (error == NoProblem)
      ensures ok ==> Ready(Now(), input, pos, l)
      ensures Kept(old(history), history, tokensParsed)
      ensures Did(ReadyFor(old(Now()), l), ok)
    {
      hide Nest, Words, Proper, Rest, Unrolled, ValidInput, WithoutStale;
      ScanToNextToken(l);
      ForgetStale(Now());
      ok := StaleSimpleKeys();
      if !ok {
        return;
      }
      OnlyLater(Now());
      UnrollIndent(mark.column);
    }

    /** Fetches one token, and the tokens it implies. */
    method FetchNextToken() returns (ok: bool)
      requires Valid() && error == NoProblem && pos < |input|
      modifies this, tokens
      ensures Queue() && (tokens == old(tokens) || fresh(tokens))
      ensures ok == (error == NoProblem) && streamStartProduced
      ensures tokenAvailable == old(tokenAvailable) && streamEndProduced == old(streamEndProduced)
      ensures ok ==> Valid() && pos == if old(streamStartProduced) then old(pos) + 1 else 0
      ensures ok ==> tokensParsed == old(tokensParsed) && Kept(old(history), history, tokensParsed)
      ensures old(streamStartProduced) ==> Did(FetchedNext(old(Now()), input[old(pos)]), ok)
      ensures !old(streamStartProduced) ==> ok && Now() == STARTED
    {
      hide Reading, Ready, Rest, Nest, ReadyFor, Fetched, ValidInput, Words, Proper, Queue;
      if !streamStartProduced {
        FetchStreamStart();
        return true;
      }
      var l := input[pos];
      ok := GetReady(l);
      if ok {
        ghost var was := history;
        ok := Dispatch(l);
      }
    }

    method CannotStart() returns (ok: bool)
      requires Queue()
      modifies `error
      ensures Queue() && !ok && error == ScannerError("found character that cannot start any token")
    {
      ok := SetError(ScannerError("found character that cannot start any token"));
    }

    method Dispatch(l: Lexeme) returns (ok: bool)
      requires Queue() && error == NoProblem && Ready(Now(), input, pos, l)
      modifies this, tokens
      ensures Queue() && (tokens == old(tokens) || fresh(tokens)) && Flags() == old(Flags())
      ensures ok == (error == NoProblem)
      ensures ok ==> pos == old(pos) + 1 && Reading(Now(), input, pos)
      ensures ok ==> tokensParsed == old(tokensParsed) && Kept(old(history), history, tokensParsed)
      ensures Sane(old(Now())) && Did(Fetched(old(Now()), l), ok)
    {
      hide Ready, Reading, Rest, Nest, Kept, Queue;
      StandsAt(Now(), input, pos, l);
      if l.Strange? || (IsBlockScalar(l.token) && flowLevel > 0) {
        ok := CannotStart();
      } else if IsEnd(l) {
        ok := FetchStreamEnd(l);
      } else if AtLineStart(l.token.typ) {
        ok := FetchAtLineStart(l);
      } else if IsBlockScalar(l.token) {
        ok := FetchBlockScalar(l);
      } else if IsScanned(l.token.typ) {
        ok := FetchScanned(l);
      } else {
        ok := FetchIndicator(l);
      }
    }

    /** The indicators of one character. */
    method FetchIndicator(l: Lexeme) returns (ok: bool)
      requires Queue() && error == NoProblem && Ready(Now(), input, pos, l)
      requires l.Lexeme? && !IsEnd(l) && !AtLineStart(l.token.typ) && !IsScanned(l.token.typ)
      modifies this, tokens
      ensures Queue() && (tokens == old(tokens) || fresh(tokens)) && Flags() == old(Flags())
      ensures ok == (error == NoProblem)
      ensures ok ==> pos == old(pos) + 1 && Reading(Now(), input, pos)
      ensures ok ==> tokensParsed == old(tokensParsed) && Kept(old(history), history, tokensParsed)
      ensures Sane(old(Now())) && Did(Fetched(old(Now()), l), ok)
    {
      hide Ready, Reading, Rest, Nest, Kept, Queue;
      StandsAt(Now(), input, pos, l);
      match l.token.typ {
        case FlowSequenceStartToken => ok := FetchFlowStart(l);
        case FlowMappingStartToken => ok := FetchFlowStart(l);
        case FlowSequenceEndToken => ok := FetchFlowEnd(l);
        case FlowMappingEndToken => ok := FetchFlowEnd(l);
        case FlowEntryToken => ok := FetchFlowEntry(l);
        case BlockEntryToken => ok := FetchBlockEntry(l);
        case KeyToken => ok := FetchKey(l);
        case ValueToken => ok := FetchValue(l);
      }
    }

    // ----- Delivering tokens -----------------------------------------------------------

    /** No simple key can be at the head of the queue any more. */
    ghost predicate HeadReady()
      reads `keys, `history, `tokensParsed
    {
      tokensParsed < |history| && NoKeyAt(keys, tokensParsed)
    }

    /** Can a simple key still start at token `n`? */
    method MayBeKey(n: nat) returns (r: bool)
      ensures r == !NoKeyAt(keys, n)
    {
      var i := 0;
      while i < |keys|
        invariant i <= |keys| && NoKeyAt(keys[..i], n)
      {
        if keys[i].possible && keys[i].tokenNumber == n {
          return true;
        }
        i := i + 1;
      }
      assert keys[..i] == keys;
      r := false;
    }

    /** Can a simple key still start at the head of the queue? */
    method HeadMayBeKey() returns (ok: bool, more: bool)
      requires Valid() && error == NoProblem && head != len
      modifies `keys, `error
      ensures Queue() && ok == (error == NoProblem)
      ensures ok ==> Valid() && more == !NoKeyAt(keys, tokensParsed) && (more ==> pos < |input|)
      ensures if SomeRequired(old(keys), mark) then !ok && error == EXPECTED_COLON
              else ok && Now() == old(Now()).(keys := WithoutStale(old(keys), mark))
    {
      hide Reading, ValidInput, NoKeyAt;
      assert |tokens[head..len]| > 0;
      NoStaleKeys(Now(), input, pos);
      more := true;
      ok := StaleSimpleKeys();
      if ok {
        more := MayBeKey(tokensParsed);
      }
    }

    /** The scanner has got to where `scan` says. */
    ghost predicate Reached(scan: Scan, ok: bool)
      reads this
    {
      match scan
      case At(b, n) => ok && Now() == b && pos == n
      case Failed(p) => !ok && error == p
    }

    lemma EverythingAhead()
      requires Valid() && NoEnd(history[..tokensParsed])
      ensures Queue() && tokensParsed <= |history| && input != [] && pos <= |input| &&
        Kept(history, history, tokensParsed)
    {
      hide Reading;
      NotEmpty(input);
      if streamStartProduced {
        EndInQueue(Now(), input, pos);
      }
    }

    /** Is another lexeme needed? It is if the queue is empty or a simple key may start at its head. */
    method WantsMore() returns (ok: bool, more: bool)
      requires Valid() && error == NoProblem && NoEnd(history[..tokensParsed])
      modifies `keys, `error
      ensures Queue() && ok == (error == NoProblem) && (!streamStartProduced ==> ok && more && pos == 0)
      ensures ok ==> Valid() && more == (tokensParsed == |history| || !NoKeyAt(keys, tokensParsed))
      ensures ok ==> if more then !streamStartProduced || pos < |input| else streamStartProduced && HeadReady()
      ensures if tokensParsed < |history| && SomeRequired(old(keys), mark) then !ok && error == EXPECTED_COLON
              else ok && Now() == if tokensParsed < |history| then old(Now()).(keys := WithoutStale(old(keys), mark))
                  else old(Now())
    {
      hide Reading, ValidInput, NoKeyAt, SomeRequired, WithoutStale;
      ok, more := true, true;
      assert |tokens[head..len]| == len - head;
      if head != len {
        ok, more := HeadMayBeKey();
      } else if streamStartProduced {
        EndInQueue(Now(), input, pos);
      }
    }

    /** One round of fetching. */
    method FetchIfNeeded(ghost want: Scan) returns (ok: bool, more: bool)
      requires Valid() && error == NoProblem && tokensParsed <= |history| && NoEnd(history[..tokensParsed])
      requires want == Fetching(if streamStartProduced then Now() else STARTED, input, pos)
      modifies this, tokens
      ensures Queue() && (tokens == old(tokens) || fresh(tokens)) && ok == (error == NoProblem)
      ensures streamEndProduced == old(streamEndProduced) && (!ok ==> Reached(want, false))
      ensures ok ==> Valid() && streamStartProduced && old(pos) <= pos <= |input|
      ensures ok ==> tokensParsed == old(tokensParsed) && Kept(old(history), history, tokensParsed)
      ensures ok && old(streamStartProduced) && pos == old(pos) ==> history == old(history)
      ensures ok && more ==> want == Fetching(Now(), input, pos) && (pos > old(pos) || !old(streamStartProduced))
      ensures ok && !more ==> HeadReady() && Reached(want, true)
    {
      hide Valid, Queue, Kept, NoKeyAt, FetchedNext, SomeRequired, WithoutStale, Fetching;
      EverythingAhead();
      if streamStartProduced {
        FetchingIs(Now(), input, pos);
      }
      ok, more := WantsMore();
      if ok && more {
        ok := FetchNextToken();
      }
    }

    /** Fetches tokens until the first one in the queue cannot become a simple key. */
    method FetchMoreTokens() returns (ok: bool)
      requires Valid() && error == NoProblem && NoEnd(history[..tokensParsed])
      modifies this, tokens
      ensures Queue() && (tokens == old(tokens) || fresh(tokens)) && ok == (error == NoProblem)
      ensures streamEndProduced == old(streamEndProduced)
      ensures ok ==> Valid() && streamStartProduced && tokenAvailable && HeadReady()
      ensures ok ==> tokensParsed == old(tokensParsed) && Kept(old(history), history, tokensParsed)
      ensures ok ==>
        old(pos) <= pos <= |input| && (pos == old(pos) && old(streamStartProduced) ==> history == old(history))
      ensures Reached(Fetching(if old(streamStartProduced) then old(Now()) else STARTED, input, old(pos)), ok)
    {
      hide Valid, Queue, Kept, NoKeyAt, FetchedNext, SomeRequired, WithoutStale, Fetching;
      EverythingAhead();
      ghost var want := Fetching(if streamStartProduced then Now() else STARTED, input, pos);
      while true
        invariant Valid() && error == NoProblem && (tokens == old(tokens) || fresh(tokens))
        invariant streamEndProduced == old(streamEndProduced)
        invariant tokensParsed <= |history| && NoEnd(history[..tokensParsed])
        invariant old(pos) <= pos <= |input| && (old(streamStartProduced) ==> streamStartProduced)
        invariant pos == old(pos) && old(streamStartProduced) ==> history == old(history)
        invariant tokensParsed == old(tokensParsed) && Kept(old(history), history, tokensParsed)
        invariant want == Fetching(if streamStartProduced then Now() else STARTED, input, pos)
        decreases |input| - pos, !streamStartProduced
      {
        ghost var before := history;
        var more;
        ok, more := FetchIfNeeded(want);
        if !ok {
          return;
        }
        KeptOn(old(history), before, history, tokensParsed);
        if !more {
          break;
        }
      }
      tokenAvailable := true;
    }

    method PeekToken() returns (t: Option<Token>)
      requires Valid() && error == NoProblem && NoEnd(history[..tokensParsed])
      requires tokenAvailable ==> streamStartProduced && HeadReady()
      modifies this, tokens
      ensures Queue() && (tokens == old(tokens) || fresh(tokens)) && t.Some? == (error == NoProblem)
      ensures streamEndProduced == old(streamEndProduced)
      ensures t.Some? ==> Valid() && streamStartProduced && tokenAvailable && HeadReady()
      ensures t.Some? ==> tokensParsed == old(tokensParsed) && Kept(old(history), history, tokensParsed)
      ensures t.Some? ==> t.value == history[tokensParsed]
      ensures !old(tokenAvailable) ==>
        Reached(Fetching(if old(streamStartProduced) then old(Now()) else STARTED, input, old(pos)), t.Some?)
      ensures t.Some? ==>
        old(pos) <= pos <= |input| && (pos == old(pos) && old(streamStartProduced) ==> history == old(history))
    {
      hide Reading, Rest, Nest, ValidInput, NoKeyAt;
      if streamStartProduced {
        EndInQueue(Now(), input, pos);
      }
      var ok := tokenAvailable;
      if !ok {
        ok := FetchMoreTokens();
      }
      if !ok {
        return None;
      }
      assert tokens[head..len][0] == history[tokensParsed];
      t := Some(tokens[head]);
    }

    /** Delivers the token at the head of the queue; no later insertion changes it. */
    method SkipToken()
      requires Valid() && streamStartProduced && tokenAvailable && HeadReady() && NoEnd(history[..tokensParsed])
      modifies `tokenAvailable, `tokensParsed, `streamEndProduced, `head
      ensures Valid() && !tokenAvailable && tokensParsed == old(tokensParsed) + 1
      ensures streamEndProduced == (history[old(tokensParsed)].typ == StreamEndToken)
      ensures if streamEndProduced then pos == |input| && tokensParsed == |history| else NoEnd(history[..tokensParsed])
      ensures Now() == old(Now()).(parsed := tokensParsed) && tokensParsed <= |history|
    {
      hide Reading, Rest, Nest, ValidInput, NoKeyAt;
      assert tokens[head..len][0] == history[tokensParsed];
      EndIsLast(Now(), input, pos);
      Delivered(Now(), input, pos);
      tokenAvailable := false;
      tokensParsed := tokensParsed + 1;
      streamEndProduced := tokens[head].typ == StreamEndToken;
      head := head + 1;
      assert tokens[head..len] == history[tokensParsed..];
    }
  }

  function LexemeAt(typ: TokenType, line: nat, column: nat, index: nat): Lexeme {
    var start, end := Mark(index, line, column), Mark(index + 1, line, column + 1);
    Lexeme(Token(typ, start, end, "", "", "", Plain, 0, 0), end, false)
  }

  function EndAt(mark: Mark): Lexeme {
    Lexeme(BareToken(StreamEndToken, mark), mark, false)
  }

  /** The text " a: [", a line break, "]b": the case that the source says should not happen. */
  const STRANGE_TEXT := [
    LexemeAt(ScalarToken, 0, 1, 1), LexemeAt(ValueToken, 0, 2, 2), LexemeAt(FlowSequenceStartToken, 0, 4, 4),
    LexemeAt(FlowSequenceEndToken, 1, 0, 6), LexemeAt(ScalarToken, 1, 1, 7), EndAt(Mark(8, 1, 2))]

  const A := Mark(1, 0, 1)

  const STRANGE_0 := STARTED.(parsed := 1)

  const STRANGE_1 := STRANGE_0.(keys := [Key(true, false, 1, A)], keyAllowed := false, mark := Mark(2, 0, 2),
                                history := STARTED.history + [STRANGE_TEXT[0].token])

  const STRANGE_2 := STRANGE_1.(keys := [Key(false, false, 1, A)], indents := [-1], indent := 1, mark := Mark(3, 0, 3),
                                history := [STARTED.history[0], BareToken(BlockMappingStartToken, A),
                                            BareToken(KeyToken, A), STRANGE_TEXT[0].token, STRANGE_TEXT[1].token])

  const STRANGE_3 := STRANGE_2.(keys := STRANGE_2.keys + [NO_KEY], flowLevel := 1, keyAllowed := true, parsed := 5,
                                mark := Mark(5, 0, 5), history := STRANGE_2.history + [STRANGE_TEXT[2].token])

  const STRANGE_4 := STRANGE_3.(keys := STRANGE_2.keys, flowLevel := 0, keyAllowed := false, parsed := 6,
                                mark := Mark(7, 1, 1), history := STRANGE_3.history + [STRANGE_TEXT[3].token])

  lemma Strange1()
    ensures FetchedNext(STRANGE_0, STRANGE_TEXT[0]) == Fine(STRANGE_1)
  {
    assert WithoutStale(STARTED.keys, A) == STARTED.keys;
  }

  lemma Strange2()
    ensures FetchedNext(STRANGE_1, STRANGE_TEXT[1]) == Fine(STRANGE_2)
  {
    assert WithoutStale(STRANGE_1.keys, Mark(2, 0, 2)) == STRANGE_1.keys;
  }

  lemma Strange3()
    ensures FetchedNext(STRANGE_2.(parsed := 5), STRANGE_TEXT[2]) == Fine(STRANGE_3)
  {
    assert WithoutStale(STRANGE_2.keys, Mark(4, 0, 4)) == STRANGE_2.keys;
  }

  lemma Strange4()
    ensures FetchedNext(STRANGE_3.(parsed := 6), STRANGE_TEXT[3]) == Fine(STRANGE_4)
  {
    assert WithoutStale(STRANGE_3.keys, Mark(6, 1, 0)) == STRANGE_3.keys;
    assert STRANGE_3.keys[..1] == STRANGE_2.keys;
  }

  lemma Strange5()
    ensures FetchedNext(STRANGE_4.(parsed := 7), STRANGE_TEXT[4]) == Fault(ShouldNotHappen)
  {
    assert WithoutStale(STRANGE_4.keys, Mark(7, 1, 1)) == STRANGE_4.keys;
  }

  /** Without a possible key, a token in the queue is delivered. */
  lemma Quiet(b: Book, input: seq<Lexeme>, pos: nat)
    requires b.parsed < |b.history| && forall i :: 0 <= i < |b.keys| ==> !b.keys[i].possible
    ensures Fetching(b, input, pos) == At(b, pos)
  {
    hide FetchedNext;
    assert WithoutStale(b.keys, b.mark) == b.keys;
    FetchingIs(b, input, pos);
  }

  lemma QuietDelivery(out: seq<Token>, all: (seq<Token>, Problem), b: Book, input: seq<Lexeme>, pos: nat)
    requires b.parsed < |b.history| && forall i :: 0 <= i < |b.keys| ==> !b.keys[i].possible
    requires b.history[b.parsed].typ != StreamEndToken && pos <= |input|
    requires ToCome(out, all, Scanning(b, input, pos))
    ensures ToCome(out + [b.history[b.parsed]], all, Scanning(b.(parsed := b.parsed + 1), input, pos))
  {
    hide ToCome, Scanning, Fetching;
    Quiet(b, input, pos);
    OneDelivered(out, all, b, input, pos, b, pos);
  }

  /** With an empty queue, a lexeme is fetched first. */
  lemma FetchOne(b: Book, next: Book, input: seq<Lexeme>, pos: nat)
    requires b.parsed == |b.history| && pos < |input| && FetchedNext(b, input[pos]) == Fine(next)
    ensures Fetching(b, input, pos) == Fetching(next, input, pos + 1)
  {
    hide FetchedNext, Fetching;
    FetchingIs(b, input, pos);
  }

  /** The first key is found when its ':' is fetched. */
  lemma StrangeKey()
    ensures Fetching(STRANGE_0, STRANGE_TEXT, 0) == At(STRANGE_2, 2)
  {
    hide FetchedNext, Fetching, LexemeAt;
    Strange1();
    Strange2();
    FetchOne(STRANGE_0, STRANGE_1, STRANGE_TEXT, 0);
    assert WithoutStale(STRANGE_1.keys, STRANGE_1.mark) == STRANGE_1.keys;
    assert !NoKeyAt(STRANGE_1.keys, 1) by {
      assert STRANGE_1.keys[0].possible;
    }
    FetchingIs(STRANGE_1, STRANGE_TEXT, 1);
    Quiet(STRANGE_2, STRANGE_TEXT, 2);
  }

  /** A required simple key is not always allowed: after seven tokens of a valid text the scanner
    * comes to the place that it takes for impossible. */
  lemma ShouldNotHappenHappens()
    ensures ValidInput(STRANGE_TEXT)
    ensures Scanning(STARTED, STRANGE_TEXT, 0) == (STRANGE_4.history, ShouldNotHappen)
  {
    hide FetchedNext, ToCome, Scanning, Fetching, ValidInput, LexemeAt;
    StrangeIsValid();
    var all := Scanning(STARTED, STRANGE_TEXT, 0);
    AllToCome(all);
    QuietDelivery([], all, STARTED, STRANGE_TEXT, 0);
    assert [] + [STARTED.history[0]] == STARTED.history;
    StrangeMapping(all);
    StrangeBracket(all);
    StrangeEnd(STRANGE_3.history, all);
  }

  lemma StrangeIsValid()
    ensures ValidInput(STRANGE_TEXT)
  {
    hide LexemeAt, EndAt, ValidLexeme, IsEnd, StartOf, EndOf;
    LexemeFits(ScalarToken, 0, 1, 1);
    LexemeFits(ValueToken, 0, 2, 2);
    LexemeFits(FlowSequenceStartToken, 0, 4, 4);
    LexemeFits(FlowSequenceEndToken, 1, 0, 6);
    LexemeFits(ScalarToken, 1, 1, 7);
    EndFits(Mark(8, 1, 2));
  }

  lemma LexemeFits(typ: TokenType, line: nat, column: nat, index: nat)
    requires typ == ScalarToken || typ == ValueToken || typ == FlowSequenceStartToken || typ == FlowSequenceEndToken
    ensures var l := LexemeAt(typ, line, column, index);
      && ValidLexeme(l) && !IsEnd(l)
      && StartOf(l) == Mark(index, line, column) && EndOf(l) == Mark(index + 1, line, column + 1)
  {
  }

  lemma EndFits(mark: Mark)
    ensures ValidLexeme(EndAt(mark)) && IsEnd(EndAt(mark)) && StartOf(EndAt(mark)) == mark
  {
  }

  /** The tokens of the mapping are delivered. */
  lemma StrangeMapping(all: (seq<Token>, Problem))
    requires ToCome(STARTED.history, all, Scanning(STRANGE_0, STRANGE_TEXT, 0))
    ensures ToCome(STRANGE_2.history, all, Scanning(STRANGE_2.(parsed := 5), STRANGE_TEXT, 2))
  {
    hide FetchedNext, ToCome, Scanning, Fetching;
    var b, h := STRANGE_2, STRANGE_2.history;
    StrangeKey();
    OneDelivered(STARTED.history, all, STRANGE_0, STRANGE_TEXT, 0, b, 2);
    assert STARTED.history + [h[1]] == h[..2] && h[..2] + [h[2]] == h[..3];
    assert h[..3] + [h[3]] == h[..4] && h[..4] + [h[4]] == h;
    QuietDelivery(h[..2], all, b.(parsed := 2), STRANGE_TEXT, 2);
    QuietDelivery(h[..3], all, b.(parsed := 3), STRANGE_TEXT, 2);
    QuietDelivery(h[..4], all, b.(parsed := 4), STRANGE_TEXT, 2);
  }

  lemma StrangeBracket(all: (seq<Token>, Problem))
    requires ToCome(STRANGE_2.history, all, Scanning(STRANGE_2.(parsed := 5), STRANGE_TEXT, 2))
    ensures ToCome(STRANGE_3.history, all, Scanning(STRANGE_3.(parsed := 6), STRANGE_TEXT, 3))
  {
    hide FetchedNext, ToCome, Scanning, Fetching;
    Strange3();
    FetchOne(STRANGE_2.(parsed := 5), STRANGE_3, STRANGE_TEXT, 2);
    Quiet(STRANGE_3, STRANGE_TEXT, 3);
    OneDelivered(STRANGE_2.history, all, STRANGE_2.(parsed := 5), STRANGE_TEXT, 2, STRANGE_3, 3);
    assert STRANGE_2.history + [STRANGE_3.history[5]] == STRANGE_3.history;
  }

  lemma StrangeEnd(out: seq<Token>, all: (seq<Token>, Problem))
    requires ToCome(out, all, Scanning(STRANGE_3.(parsed := 6), STRANGE_TEXT, 3)) && out == STRANGE_3.history
    ensures all == (STRANGE_4.history, ShouldNotHappen)
  {
    hide FetchedNext, ToCome, Scanning, Fetching;
    Strange4();
    FetchOne(STRANGE_3.(parsed := 6), STRANGE_4, STRANGE_TEXT, 3);
    Quiet(STRANGE_4, STRANGE_TEXT, 4);
    OneDelivered(out, all, STRANGE_3.(parsed := 6), STRANGE_TEXT, 3, STRANGE_4, 4);
    assert out + [STRANGE_4.history[6]] == STRANGE_4.history;
    Strange5();
    FetchingIs(STRANGE_4.(parsed := 7), STRANGE_TEXT, 4);
    Faulted(STRANGE_4.history, all, STRANGE_4.(parsed := 7), STRANGE_TEXT, 4, ShouldNotHappen);
  }

  /** A token stream for the whole text: its tokens in order, each late token before the token
    * it announces, and the end of the stream nowhere but at the end. */
  ghost predicate IsStreamOf(ts: seq<Token>, input: seq<Lexeme>) {
    && Proper(ts) == Words(input, |input|) && Pinned(ts) && Nest(ts).Some?
    && ts != [] && ts[|ts| - 1].typ == StreamEndToken && NoEnd(ts[..|ts| - 1])
  }

  lemma Whole(b: Book, input: seq<Lexeme>)
    requires Reading(b, input, |input|) && b.parsed == |b.history|
    ensures IsStreamOf(b.history[..b.parsed], input)
    ensures b.flowLevel == 0 ==> Nest(b.history[..b.parsed]) == Some([])
  {
    assert b.history[..b.parsed] == b.history;
    if b.flowLevel == 0 {
      Balanced(b, input);
    }
  }

  /** `all` is what was delivered, and what is still to come. */
  ghost predicate ToCome(out: seq<Token>, all: (seq<Token>, Problem), rest: (seq<Token>, Problem)) {
    all.0 == out + rest.0 && all.1 == rest.1
  }

  /** One token more is delivered. */
  lemma OneDelivered(out: seq<Token>, all: (seq<Token>, Problem), was: Book, input: seq<Lexeme>, before: nat, b: Book,
      pos: nat)
    requires ToCome(out, all, Scanning(was, input, before)) && Fetching(was, input, before) == At(b, pos)
    requires b.parsed < |b.history| && pos <= |input|
    ensures var t := b.history[b.parsed];
      ToCome(out + [t], all, if t.typ == StreamEndToken then ([], NoProblem)
          else Scanning(b.(parsed := b.parsed + 1), input, pos))
  {
    hide Scanning, Fetching;
    ScanningIs(was, input, before);
  }

  lemma Faulted(out: seq<Token>, all: (seq<Token>, Problem), was: Book, input: seq<Lexeme>, before: nat,
      problem: Problem)
    requires ToCome(out, all, Scanning(was, input, before)) && Fetching(was, input, before) == Failed(problem)
    ensures all == (out, problem)
  {
    hide Scanning, Fetching;
    ScanningIs(was, input, before);
    assert out + [] == out;
  }

  lemma AllToCome(all: (seq<Token>, Problem))
    ensures ToCome([], all, all)
  {
    assert [] + all.0 == all.0;
  }

  lemma NothingEnds()
    ensures NoEnd([])
  {
  }

  lemma NoneToCome(out: seq<Token>, all: (seq<Token>, Problem))
    requires ToCome(out, all, ([], NoProblem))
    ensures all == (out, NoProblem)
  {
    assert out + [] == out;
  }

  /** All tokens of a text, as the parser takes them. If the text is scanned without an error,
    * the tokens delivered, one at a time and never taken back, are a stream for the text; its
    * block collections are all closed if its flow collections are. */
  method ScanAll(input: seq<Lexeme>) returns (out: seq<Token>, error: Problem, flowLevel: nat)
    requires ValidInput(input)
    ensures error == NoProblem ==> IsStreamOf(out, input)
    ensures error == NoProblem && flowLevel == 0 ==> Nest(out) == Some([])
    ensures error != NoProblem ==> NoEnd(out)
    ensures (out, error) == Scanning(STARTED, input, 0)
  {
    hide Reading, Rest, Nest, NoKeyAt, NoEnd, IsStreamOf, Pinned, Proper, Words, Fetching, Scanning, ValidInput,
      ToCome, Scanner.Queue;
    assert ToCome([], Scanning(STARTED, input, 0),
      Scanning(STARTED, input, 0)) by { AllToCome(Scanning(STARTED, input, 0)); }
    NothingEnds();
    var scanner := new Scanner(input);
    out := [];
    while !scanner.streamEndProduced
      invariant scanner.input == input && scanner.error == NoProblem && fresh(scanner) && fresh(scanner.tokens)
      invariant scanner.tokensParsed <= |scanner.history|
      invariant scanner.Valid() && !scanner.tokenAvailable && out == scanner.history[..scanner.tokensParsed]
      invariant !scanner.streamEndProduced ==> NoEnd(out)
      invariant ToCome(out, Scanning(STARTED, input, 0),
                       if scanner.streamEndProduced then ([], NoProblem)
                       else Scanning(if scanner.streamStartProduced then scanner.Now()
                           else STARTED, input, scanner.pos))
      invariant scanner.streamEndProduced ==>
        scanner.streamStartProduced && scanner.pos == |input| && scanner.tokensParsed == |scanner.history|
      decreases !scanner.streamEndProduced, |input| - scanner.pos, !scanner.streamStartProduced,
        |scanner.history| - scanner.tokensParsed
    {
      ghost var was := if scanner.streamStartProduced then scanner.Now() else STARTED;
      ghost var before := scanner.pos;
      var t := scanner.PeekToken();
      if t.None? {
        Faulted(out, Scanning(STARTED, input, 0), was, input, before, scanner.error);
        return out, scanner.error, scanner.flowLevel;
      }
      OneDelivered(out, Scanning(STARTED, input, 0), was, input, before, scanner.Now(), scanner.pos);
      scanner.SkipToken();
      out := out + [t.value];
    }
    Whole(scanner.Now(), input);
    NoneToCome(out, Scanning(STARTED, input, 0));
    return out, NoProblem, scanner.flowLevel;
  }
}
