/** The tokens of a text, written down with unlimited lookahead.
  *
  * The scanner puts KEY and BLOCK-MAPPING-START into the queue when it comes to the ":" behind a
  * simple key. Here it is known of every lexeme whether it will be such a key, and the tokens are
  * laid down in one pass. `ScansAhead` shows that the scanner delivers just these tokens. */
module YamlLookahead {
  import opened Options
  import opened YamlEvents
  import opened YamlTokens
  import opened YamlScanner

  // ----- Where simple keys are ---------------------------------------------------------

  predicate Has(l: Lexeme, typ: TokenType) {
    l.Lexeme? && l.token.typ == typ
  }

  predicate StartsFlow(l: Lexeme) {
    Has(l, FlowSequenceStartToken) || Has(l, FlowMappingStartToken)
  }

  predicate EndsFlow(l: Lexeme) {
    Has(l, FlowSequenceEndToken) || Has(l, FlowMappingEndToken)
  }

  /** How many flow collections are open before the lexeme at `n`. */
  function Level(input: seq<Lexeme>, n: nat): nat
    requires n <= |input|
  {
    if n == 0 then 0
    else
      var d := Level(input, n - 1);
      if StartsFlow(input[n - 1]) then d + 1 else if EndsFlow(input[n - 1]) && d > 0 then d - 1 else d
  }

  /** A simple key can start with a flow collection, an alias, properties or a scalar on one line. */
  predicate IsStarter(l: Lexeme) {
    || StartsFlow(l) || Has(l, AliasToken) || Has(l, AnchorToken) || Has(l, TagToken)
    || (Has(l, ScalarToken) && l.token.style != Literal && l.token.style != Folded)
  }

  /** May a simple key start behind the first `n` lexemes, on the same line? */
  predicate AllowedAfter(input: seq<Lexeme>, n: nat)
    requires n <= |input|
    decreases n, 1
  {
    n == 0 ||
    var l := input[n - 1];
    l.Lexeme? &&
    match l.token.typ
    case FlowSequenceStartToken | FlowMappingStartToken | FlowEntryToken | BlockEntryToken => true
    case KeyToken => Level(input, n - 1) == 0
    case ValueToken => Level(input, n - 1) == 0 && KeyFor(input, n - 1) == None
    case ScalarToken => l.token.style == Literal || l.token.style == Folded || l.leadingBlanks
    case AliasToken | AnchorToken | TagToken => l.leadingBlanks
    case _ => false
  }

  /** May a simple key start at the lexeme `n`? In block context, a new line allows it. */
  predicate AllowedAt(input: seq<Lexeme>, n: nat)
    requires n < |input|
    decreases n, 2
  {
    || AllowedAfter(input, n)
    || (Level(input, n) == 0 && (if n == 0 then 0 else EndOf(input[n - 1]).line) < StartOf(input[n]).line)
  }

  /** For every open flow collection, and for the block level: the lexeme before `n` at which a simple key may have
    * started that is not over yet. */
  function Candidates(input: seq<Lexeme>, n: nat): (r: seq<Option<nat>>)
    requires n <= |input|
    ensures |r| == Level(input, n) + 1
    ensures forall i :: 0 <= i < |r| && r[i].Some? ==> r[i].value < n
    decreases n, 0
  {
    if n == 0 then [None]
    else
      var l, before := input[n - 1], Candidates(input, n - 1);
      var top := |before| - 1;
      if IsStarter(l) then
        var here := if AllowedAt(input, n - 1) then before[top := Some(n - 1)] else before;
        if StartsFlow(l) then here + [None] else here
      else if EndsFlow(l) && top > 0 then before[..top]
      else if l.Lexeme? then before[top := None]
      else before
  }

  /** A key lies on one line and is at most 1024 characters away from its ":". */
  predicate TooFar(key: Mark, value: Mark) {
    key.line < value.line || key.index + 1024 < value.index
  }

  /** The simple key whose ":" is the lexeme at `v`. */
  function KeyFor(input: seq<Lexeme>, v: nat): (k: Option<nat>)
    requires v < |input|
    ensures k.Some? ==> k.value < v
    decreases v, 1
  {
    var c := Candidates(input, v)[Level(input, v)];
    if c.Some? && !TooFar(StartOf(input[c.value]), StartOf(input[v])) then c else None
  }

  /** Is the lexeme at `k` a simple key, as far as the first `m` lexemes tell? */
  predicate IsKey(input: seq<Lexeme>, k: nat, m: nat)
    requires m <= |input|
  {
    exists v :: k < v < m && Has(input[v], ValueToken) && KeyFor(input, v) == Some(k)
  }

  // ----- The tokens laid down ----------------------------------------------------------

  /** The tokens so far, and the columns of the block collections that are open. */
  datatype Laid = Laid(ts: seq<Token>, columns: seq<int>)

  /** The block collections that are indented more than `column` are closed. */
  function Close(f: Laid, column: int, mark: Mark): (r: Laid)
    ensures f.ts <= r.ts && r.columns <= f.columns
    decreases |f.columns|
  {
    if Top(f.columns) <= column || f.columns == [] then f
    else Close(Laid(f.ts + [BareToken(BlockEndToken, mark)], f.columns[..|f.columns| - 1]), column, mark)
  }

  /** Before a lexeme of the block level, deeper collections are closed; at the start of a document, a directive and
    * the end of the stream, all of them. */
  function ClosedFor(f: Laid, l: Lexeme): (r: Laid)
    requires l.Lexeme?
    ensures f.ts <= r.ts && r.columns <= f.columns
  {
    var deeper := Close(f, l.token.start.column, l.token.start);
    if IsEnd(l) then Close(deeper, -1, ForcedLine(l.token.start))
    else if AtLineStart(l.token.typ) then Close(deeper, -1, l.token.start)
    else deeper
  }

  /** The block collection that the lexeme at `n` opens, if none is open at its column. */
  function Opens(input: seq<Lexeme>, n: nat, m: nat): Option<TokenType>
    requires n < |input| && m <= |input|
  {
    if Has(input[n], BlockEntryToken) then Some(BlockSequenceStartToken)
    else if Has(input[n], KeyToken) || (Has(input[n], ValueToken) && KeyFor(input, n) == None)
      || IsKey(input, n, m) then
      Some(BlockMappingStartToken)
    else None
  }

  function OpenedFor(f: Laid, typ: Option<TokenType>, start: Mark): (r: Laid)
    ensures f.ts <= r.ts
  {
    if typ == None || Top(f.columns) >= start.column then f
    else Laid(f.ts + [BareToken(typ.value, start)], f.columns + [start.column])
  }

  /** The lexeme at `n` is laid down behind the tokens `f`. */
  function LaidOne(f: Laid, input: seq<Lexeme>, n: nat, m: nat): (r: Laid)
    requires n < |input| && m <= |input|
    ensures f.ts <= r.ts
  {
    var l := input[n];
    if !l.Lexeme? then f
    else
      var around :=
        if Level(input, n) > 0 then f else OpenedFor(ClosedFor(f, l), Opens(input, n, m), l.token.start);
      var key := if IsKey(input, n, m) then [BareToken(KeyToken, l.token.start)] else [];
      Laid(around.ts + key + [TokenOf(l)], around.columns)
  }

  /** The tokens of the first `n` lexemes, if the first `m` tell which of them are simple keys. */
  function LaidDown(input: seq<Lexeme>, n: nat, m: nat): Laid
    requires n <= |input| && m <= |input|
  {
    if n == 0 then Laid([BareToken(StreamStartToken, Mark(0, 0, 0))], [])
    else LaidOne(LaidDown(input, n - 1, m), input, n - 1, m)
  }

  // ----- Errors ------------------------------------------------------------------------

  /** A lexeme at the column of the block collection it is in must be a key. */
  predicate MustBeKey(input: seq<Lexeme>, k: nat, m: nat)
    requires k < |input| && m <= |input|
  {
    Level(input, k) == 0 && Top(LaidDown(input, k + 1, m).columns) == StartOf(input[k]).column
  }

  /** The lexeme at `k` must be a key, is not over behind `n` lexemes, and its ":" does not come. */
  predicate ColonMissing(input: seq<Lexeme>, n: nat, k: nat) {
    && k < n <= |input| && Some(k) in Candidates(input, n) && MustBeKey(input, k, n)
    && (n == |input| || !Has(input[n], ValueToken) || TooFar(StartOf(input[k]), StartOf(input[n])))
  }

  /** A scan fails, and why "could not find expected ':'" is reported. */
  ghost predicate ColonReason(input: seq<Lexeme>, p: Problem) {
    && p != NoProblem
    && (p == EXPECTED_COLON ==>
          || (exists n, k :: ColonMissing(input, n, k))
          || (exists n :: 0 <= n < |input| && input[n].Broken? && ScannerError(input[n].problem) == p))
  }

  // ----- Candidates --------------------------------------------------------------------

  /** A candidate started where it was allowed, at its own level. */
  lemma {:induction false} CandidateIs(input: seq<Lexeme>, n: nat, i: nat)
    requires n <= |input| && i < |Candidates(input, n)| && Candidates(input, n)[i].Some?
    ensures var k := Candidates(input, n)[i].value;
      k < n && IsStarter(input[k]) && AllowedAt(input, k) && Level(input, k) == i
    decreases n
  {
    hide AllowedAt, IsStarter;
    var k := Candidates(input, n)[i].value;
    if k < n - 1 {
      StaysCandidate(input, n, i);
      CandidateIs(input, n - 1, i);
    } else {
      NewCandidate(input, n, i);
    }
  }

  lemma NewCandidate(input: seq<Lexeme>, n: nat, i: nat)
    requires 0 < n <= |input| && i < |Candidates(input, n)| && Candidates(input, n)[i] == Some(n - 1)
    ensures IsStarter(input[n - 1]) && AllowedAt(input, n - 1) && Level(input, n - 1) == i
  {
    hide AllowedAt, IsStarter, Level;
  }

  lemma StaysCandidate(input: seq<Lexeme>, n: nat, i: nat)
    requires 0 < n <= |input| && i < |Candidates(input, n)| && Candidates(input, n)[i].Some?
    requires Candidates(input, n)[i].value < n - 1
    ensures i < |Candidates(input, n - 1)| && Candidates(input, n - 1)[i] == Candidates(input, n)[i]
    ensures i == Level(input, n - 1) ==> !input[n - 1].Lexeme? || (IsStarter(input[n - 1]) && !AllowedAt(input, n - 1))
  {
    hide AllowedAt, IsStarter, Level;
  }

  /** While a lexeme is a candidate, no ":" has made a key of it. */
  lemma {:induction false} NotYetKey(input: seq<Lexeme>, n: nat, i: nat)
    requires n <= |input| && i < |Candidates(input, n)| && Candidates(input, n)[i].Some?
    ensures !IsKey(input, Candidates(input, n)[i].value, n)
    decreases n
  {
    hide AllowedAt, IsStarter, Candidates, Level;
    var k := Candidates(input, n)[i].value;
    CandidateIs(input, n, i);
    if k < n - 1 {
      StaysCandidate(input, n, i);
      NotYetKey(input, n - 1, i);
      if Has(input[n - 1], ValueToken) && KeyFor(input, n - 1) == Some(k) {
        CandidateIs(input, n - 1, Level(input, n - 1));
        ValueIsNoStarter(input[n - 1]);
        assert false;
      }
    }
  }

  lemma ValueIsNoStarter(l: Lexeme)
    requires Has(l, ValueToken)
    ensures !IsStarter(l) && !StartsFlow(l) && !EndsFlow(l) && l.Lexeme?
  {
  }

  /** A candidate has been one since it started. */
  lemma {:induction false} Persists(input: seq<Lexeme>, n: nat, i: nat, j: nat)
    requires n <= |input| && i < |Candidates(input, n)| && Candidates(input, n)[i].Some?
    requires Candidates(input, n)[i].value < j <= n
    ensures i < |Candidates(input, j)| && Candidates(input, j)[i] == Candidates(input, n)[i]
    decreases n
  {
    hide Candidates;
    if j < n {
      StaysCandidate(input, n, i);
      Persists(input, n - 1, i, j);
    }
  }

  /** Candidates of deeper levels are later. */
  lemma {:induction false} CandidatesIncrease(input: seq<Lexeme>, n: nat, i: nat, j: nat)
    requires n <= |input| && i < j < |Candidates(input, n)|
    requires Candidates(input, n)[i].Some? && Candidates(input, n)[j].Some?
    ensures Candidates(input, n)[i].value < Candidates(input, n)[j].value
    decreases n
  {
    hide Candidates, Level;
    var a, b := Candidates(input, n)[i].value, Candidates(input, n)[j].value;
    if a == n - 1 {
      NewCandidate(input, n, i);
      if b < n - 1 {
        StaysCandidate(input, n, j);
      } else {
        NewCandidate(input, n, j);
      }
    } else {
      StaysCandidate(input, n, i);
      if b < n - 1 {
        StaysCandidate(input, n, j);
        CandidatesIncrease(input, n - 1, i, j);
      }
    }
  }

  // ----- One more decision -------------------------------------------------------------

  lemma OneDecision(input: seq<Lexeme>, i: nat, m: nat)
    requires m < |input|
    ensures IsKey(input, i, m + 1) <==>
      IsKey(input, i, m) || (i < m && Has(input[m], ValueToken) && KeyFor(input, m) == Some(i))
  {
    hide KeyFor;
  }

  lemma {:induction false} SameLaid(input: seq<Lexeme>, n: nat, m: nat, m': nat)
    requires n <= |input| && m <= |input| && m' <= |input|
    requires forall i :: 0 <= i < n ==> (IsKey(input, i, m) <==> IsKey(input, i, m'))
    ensures LaidDown(input, n, m) == LaidDown(input, n, m')
    decreases n
  {
    hide IsKey, KeyFor, ClosedFor, OpenedFor;
    if n > 0 {
      SameLaid(input, n - 1, m, m');
    }
  }

  /** Lexemes before a new key are laid down as before. */
  lemma SameBefore(input: seq<Lexeme>, n: nat, m: nat)
    requires n <= |input| && m < |input|
    requires Has(input[m], ValueToken) && KeyFor(input, m).Some? ==> n <= KeyFor(input, m).value
    ensures LaidDown(input, n, m) == LaidDown(input, n, m + 1)
  {
    hide IsKey, LaidDown, KeyFor;
    forall i | 0 <= i < n
      ensures IsKey(input, i, m) <==> IsKey(input, i, m + 1)
    {
      OneDecision(input, i, m);
    }
    SameLaid(input, n, m, m + 1);
  }

  lemma {:induction false} LaidGrows(input: seq<Lexeme>, j: nat, n: nat, m: nat)
    requires j <= n <= |input| && m <= |input|
    ensures LaidDown(input, j, m).ts <= LaidDown(input, n, m).ts
    decreases n
  {
    hide LaidOne;
    if j < n {
      LaidGrows(input, j, n - 1, m);
    }
  }

  /** On a line, lexemes come one after the other. */
  lemma {:induction false} Later(input: seq<Lexeme>, k: nat, j: nat)
    requires ValidInput(input) && k < j < |input| && input[k].Lexeme?
    requires forall i :: k <= i < j ==> input[i].Lexeme?
    ensures Before(StartOf(input[k]), StartOf(input[j]))
    ensures Follows(EndOf(input[k]), StartOf(input[j]))
    decreases j
  {
    assert ValidLexeme(input[k]) && ValidLexeme(input[j - 1]) && Follows(EndOf(input[j - 1]), StartOf(input[j]));
    assert !IsEnd(input[k]) && !IsEnd(input[j - 1]);
    if k < j - 1 {
      Later(input, k, j - 1);
    }
  }

  /** The tokens `ts` with a late KEY, and the start of a mapping before it, at `p`. */
  function Announced(ts: seq<Token>, p: nat, start: Mark, opens: bool): seq<Token>
    requires p <= |ts|
  {
    ts[..p] + (if opens then [BareToken(BlockMappingStartToken, start)] else [])
      + [BareToken(KeyToken, start)] + ts[p..]
  }

  lemma AnnouncedOn(ts: seq<Token>, p: nat, start: Mark, opens: bool, more: seq<Token>)
    requires p <= |ts|
    ensures Announced(ts + more, p, start, opens) == Announced(ts, p, start, opens) + more
  {
    assert (ts + more)[..p] == ts[..p] && (ts + more)[p..] == ts[p..] + more;
  }

  /** Where the new key of the ":" at `v` stands among the tokens. */
  function PlaceOf(input: seq<Lexeme>, k: nat, m: nat): int
    requires k < |input| && m <= |input|
  {
    |LaidDown(input, k + 1, m).ts| - 1
  }

  predicate OpensMapping(input: seq<Lexeme>, k: nat, m: nat)
    requires k < |input| && m <= |input|
  {
    Level(input, k) == 0 && Top(LaidDown(input, k + 1, m).columns) < StartOf(input[k]).column
  }

  function WithColumn(columns: seq<int>, opens: bool, column: int): seq<int> {
    if opens then columns + [column] else columns
  }

  /** A lexeme laid down as a key, or not. */
  lemma StarterTwice(f: Laid, input: seq<Lexeme>, k: nat, m: nat, m': nat)
    requires k < |input| && m <= |input| && m' <= |input|
    requires IsStarter(input[k]) && !IsKey(input, k, m) && IsKey(input, k, m')
    ensures var start := StartOf(input[k]);
      var g := if Level(input, k) > 0 then f else ClosedFor(f, input[k]);
      var opens := Level(input, k) == 0 && Top(g.columns) < start.column;
      && LaidOne(f, input, k, m) == Laid(g.ts + [TokenOf(input[k])], g.columns)
      && LaidOne(f, input, k, m') ==
           Laid(g.ts + (if opens then [BareToken(BlockMappingStartToken, start)] else []) + [BareToken(KeyToken, start)]
                + [TokenOf(input[k])], WithColumn(g.columns, opens, start.column))
  {
    hide IsKey, KeyFor, ClosedFor;
    var g := if Level(input, k) > 0 then f else ClosedFor(f, input[k]);
    assert g.ts + [] == g.ts;
  }

  lemma AnnouncedLast(ts: seq<Token>, t: Token, start: Mark, opens: bool)
    ensures Announced(ts + [t], |ts|, start, opens)
         == ts + (if opens then [BareToken(BlockMappingStartToken, start)] else []) + [BareToken(KeyToken, start)] + [t]
  {
    assert (ts + [t])[..|ts|] == ts && (ts + [t])[|ts|..] == [t];
  }

  /** The lexeme that turns out to be a key, laid down as such. */
  lemma KeyLaid(input: seq<Lexeme>, v: nat, k: nat)
    requires v < |input| && Has(input[v], ValueToken) && KeyFor(input, v) == Some(k)
    ensures var f, f' := LaidDown(input, k + 1, v), LaidDown(input, k + 1, v + 1);
      var start, opens := StartOf(input[k]), OpensMapping(input, k, v);
      && PlaceOf(input, k, v) >= 0
      && f'.ts == Announced(f.ts, PlaceOf(input, k, v), start, opens)
      && f'.columns == WithColumn(f.columns, opens, start.column)
    ensures Level(input, k) == 0 ==> Top(LaidDown(input, k + 1, v).columns) <= StartOf(input[k]).column
  {
    hide KeyFor, Candidates, LaidDown, LaidOne, ClosedFor, AllowedAt, IsKey, IsStarter, Announced, TooFar;
    KeyForIs(input, v);
    CandidateIs(input, v, Level(input, v));
    NotYetKey(input, v, Level(input, v));
    SameBefore(input, k, v);
    OneDecision(input, k, v);
    var f0 := LaidDown(input, k, v);
    LaidIs(input, k, v);
    LaidIs(input, k, v + 1);
    StarterTwice(f0, input, k, v, v + 1);
    StarterIs(input[k]);
    ClosesTo(f0, input[k]);
    var g := if Level(input, k) > 0 then f0 else ClosedFor(f0, input[k]);
    AnnouncedLast(g.ts, TokenOf(input[k]), StartOf(input[k]), OpensMapping(input, k, v));
  }

  lemma StarterIs(l: Lexeme)
    requires IsStarter(l)
    ensures l.Lexeme?
  {
  }

  lemma KeyForIs(input: seq<Lexeme>, v: nat)
    requires v < |input|
    ensures KeyFor(input, v).Some? ==>
      Candidates(input, v)[Level(input, v)] == KeyFor(input, v) &&
          !TooFar(StartOf(input[KeyFor(input, v).value]), StartOf(input[v]))
  {
    hide Candidates;
  }

  lemma LaidIs(input: seq<Lexeme>, n: nat, m: nat)
    requires n < |input| && m <= |input|
    ensures LaidDown(input, n + 1, m) == LaidOne(LaidDown(input, n, m), input, n, m)
  {
    hide LaidOne;
  }

  lemma {:induction false} CloseTop(f: Laid, column: int, mark: Mark)
    requires column >= -1
    ensures Top(Close(f, column, mark).columns) <= column
    decreases |f.columns|
  {
    if !(Top(f.columns) <= column || f.columns == []) {
      CloseTop(Laid(f.ts + [BareToken(BlockEndToken, mark)], f.columns[..|f.columns| - 1]), column, mark);
    }
  }

  lemma ClosesTo(f: Laid, l: Lexeme)
    requires l.Lexeme?
    ensures Top(ClosedFor(f, l).columns) <= l.token.start.column
  {
    hide Close;
    CloseTop(f, l.token.start.column, l.token.start);
    var deeper := Close(f, l.token.start.column, l.token.start);
    CloseTop(deeper, -1, l.token.start);
    CloseTop(deeper, -1, ForcedLine(l.token.start));
  }

  /** A lexeme inside a key that is still to be announced opens and closes nothing. */
  lemma InsideKey(input: seq<Lexeme>, v: nat, k: nat, j: nat)
    requires ValidInput(input) && v < |input| && Has(input[v], ValueToken) && KeyFor(input, v) == Some(k) && k < j < v
    requires forall i :: 0 <= i < v ==> input[i].Lexeme?
    requires Level(input, j) == 0
    ensures IsStarter(input[j]) && !IsKey(input, j, v) && !IsKey(input, j, v + 1) && Level(input, k) == 0
    ensures StartOf(input[k]).column < StartOf(input[j]).column
  {
    hide Candidates, AllowedAt, IsStarter, TooFar, ValidInput, IsKey, KeyFor;
    var d := Level(input, v);
    KeyForIs(input, v);
    CandidateIs(input, v, d);
    Persists(input, v, d, j + 1);
    Persists(input, v, d, j);
    StaysCandidate(input, j + 1, d);
    Later(input, k, j);
    Later(input, j, v);
    OnTheLine(input, k, j, v);
    NeverKey(input, j, v);
    NeverKey(input, j, v + 1);
  }

  lemma OnTheLine(input: seq<Lexeme>, k: nat, j: nat, v: nat)
    requires k < j < v < |input| && !TooFar(StartOf(input[k]), StartOf(input[v]))
    requires Before(StartOf(input[k]), StartOf(input[j])) && Before(StartOf(input[j]), StartOf(input[v]))
    ensures StartOf(input[k]).column < StartOf(input[j]).column
  {
  }

  /** What is not allowed to be a key is none. */
  lemma NeverKey(input: seq<Lexeme>, j: nat, m: nat)
    requires j < |input| && m <= |input| && !(IsStarter(input[j]) && AllowedAt(input, j))
    ensures !IsKey(input, j, m)
  {
    hide Candidates, AllowedAt, IsStarter, KeyFor;
    forall u | j < u < m && Has(input[u], ValueToken)
      ensures KeyFor(input, u) != Some(j)
    {
      KeyForIs(input, u);
      if KeyFor(input, u) == Some(j) {
        CandidateIs(input, u, Level(input, u));
      }
    }
  }

  /** Between a key and its ":", the tokens are the same but for those that announce the key. */
  lemma {:induction false} LaterLaid(input: seq<Lexeme>, v: nat, k: nat, j: nat)
    requires ValidInput(input) && v < |input| && Has(input[v], ValueToken) && KeyFor(input, v) == Some(k) && k < j <= v
    requires forall i :: 0 <= i < v ==> input[i].Lexeme?
    ensures var f, f' := LaidDown(input, j, v), LaidDown(input, j, v + 1);
      var p, start, opens := PlaceOf(input, k, v), StartOf(input[k]), OpensMapping(input, k, v);
      && 0 <= p < |f.ts| && f'.ts == Announced(f.ts, p, start, opens)
      && (Level(input, k) == 0 ==> f.columns == LaidDown(input, k + 1, v).columns)
      && f'.columns == WithColumn(f.columns, opens, start.column)
    decreases j
  {
    hide Candidates, LaidDown, LaidOne, AllowedAt, IsKey, KeyFor, Level, IsStarter, ValidInput, Announced;
    KeyLaid(input, v, k);
    LaidGrows(input, k + 1, j, v);
    if j > k + 1 {
      LaterLaid(input, v, k, j - 1);
      OneLaidInside(input, v, k, j - 1);
    }
  }

  lemma OneLaidInside(input: seq<Lexeme>, v: nat, k: nat, j: nat)
    requires ValidInput(input) && v < |input| && Has(input[v], ValueToken) && KeyFor(input, v) == Some(k) && k < j < v
    requires forall i :: 0 <= i < v ==> input[i].Lexeme?
    requires var f, f' := LaidDown(input, j, v), LaidDown(input, j, v + 1);
      var p, start, opens := PlaceOf(input, k, v), StartOf(input[k]), OpensMapping(input, k, v);
      && 0 <= p < |f.ts| && f'.ts == Announced(f.ts, p, start, opens)
      && (Level(input, k) == 0 ==> f.columns == LaidDown(input, k + 1, v).columns)
      && f'.columns == WithColumn(f.columns, opens, start.column)
    ensures var f, f' := LaidDown(input, j + 1, v), LaidDown(input, j + 1, v + 1);
      var p, start, opens := PlaceOf(input, k, v), StartOf(input[k]), OpensMapping(input, k, v);
      && 0 <= p < |f.ts| && f'.ts == Announced(f.ts, p, start, opens)
      && (Level(input, k) == 0 ==> f.columns == LaidDown(input, k + 1, v).columns)
      && f'.columns == WithColumn(f.columns, opens, start.column)
  {
    hide Candidates, LaidDown, LaidOne, AllowedAt, IsKey, KeyFor, Level, IsStarter, ValidInput, Announced, TooFar,
      OpensMapping, PlaceOf, TokenOf;
    LaidIs(input, j, v);
    LaidIs(input, j, v + 1);
    OneDecision(input, j, v);
    KeyLaid(input, v, k);
    var f, f' := LaidDown(input, j, v), LaidDown(input, j, v + 1);
    var p, start, opens := PlaceOf(input, k, v), StartOf(input[k]), OpensMapping(input, k, v);
    var more := (if IsKey(input, j, v) then [BareToken(KeyToken, input[j].token.start)] else []) + [TokenOf(input[j])];
    AnnouncedOn(f.ts, p, start, opens, more);
    if Level(input, j) == 0 {
      InsideKey(input, v, k, j);
      OpenedTop(input, k, v);
      StarterLaid(f, input, j, v);
      StarterLaid(f', input, j, v + 1);
      assert more == [TokenOf(input[j])];
    } else {
      InnerLaid(f, input, j, v);
      InnerLaid(f', input, j, v + 1);
    }
  }

  lemma OpenedTop(input: seq<Lexeme>, k: nat, v: nat)
    requires k < |input| && v <= |input|
    ensures var columns := LaidDown(input, k + 1, v).columns;
      Top(WithColumn(columns, OpensMapping(input, k, v), StartOf(input[k]).column)) <=
        if OpensMapping(input, k, v) then StartOf(input[k]).column else Top(columns)
  {
    hide LaidDown, OpensMapping;
  }

  lemma InnerLaid(f: Laid, input: seq<Lexeme>, j: nat, m: nat)
    requires j < |input| && m <= |input| && input[j].Lexeme? && Level(input, j) > 0
    ensures var key := if IsKey(input, j, m) then [BareToken(KeyToken, input[j].token.start)] else [];
      LaidOne(f, input, j, m) == Laid(f.ts + (key + [TokenOf(input[j])]), f.columns)
  {
    hide IsKey, KeyFor, Level, TokenOf;
  }

  lemma StarterLaid(f: Laid, input: seq<Lexeme>, j: nat, m: nat)
    requires j < |input| && m <= |input| && IsStarter(input[j]) && !IsKey(input, j, m)
    requires Top(f.columns) <= input[j].token.start.column
    ensures LaidOne(f, input, j, m) == Laid(f.ts + [TokenOf(input[j])], f.columns)
  {
    hide IsKey, KeyFor;
    assert f.ts + [] == f.ts;
  }

  // ----- The scanner has laid down as much ---------------------------------------------

  /** A simple key of the scanner and the candidate at its level; it is forgotten only when it is too far away. */
  ghost predicate KeyTie(key: Key, c: Option<nat>, mark: Mark, input: seq<Lexeme>, pos: nat)
    requires pos <= |input|
  {
    && (key.possible ==>
          && c.Some? && c.value < pos && key.mark == StartOf(input[c.value])
          && key.tokenNumber == PlaceOf(input, c.value, pos)
          && (key.required <==> MustBeKey(input, c.value, pos)))
    && (c.Some? && c.value < pos && !key.possible ==>
          TooFar(StartOf(input[c.value]), mark) && !MustBeKey(input, c.value, pos))
  }

  ghost predicate KeyTies(keys: seq<Key>, cs: seq<Option<nat>>, mark: Mark, input: seq<Lexeme>, pos: nat)
    requires pos <= |input|
  {
    |keys| == |cs| && forall i :: 0 <= i < |keys| ==> KeyTie(keys[i], cs[i], mark, input, pos)
  }

  /** Where the scanner stands behind `n` lexemes. */
  function MarkAfter(input: seq<Lexeme>, n: nat): Mark
    requires n <= |input|
  {
    if n == 0 then Mark(0, 0, 0)
    else if IsEnd(input[n - 1]) then ForcedLine(StartOf(input[n - 1]))
    else EndOf(input[n - 1])
  }

  /** The tokens and the stack of indentations of the scanner. */
  predicate Matches(b: Book, f: Laid) {
    b.history == f.ts && b.indents + [b.indent] == [-1] + f.columns
  }

  ghost predicate Ties(b: Book, input: seq<Lexeme>, pos: nat) {
    && pos <= |input| && (forall i :: 0 <= i < pos ==> input[i].Lexeme?)
    && b.flowLevel == Level(input, pos) && b.keyAllowed == AllowedAfter(input, pos) && b.mark == MarkAfter(input, pos)
    && Matches(b, LaidDown(input, pos, pos)) && KeyTies(b.keys, Candidates(input, pos), b.mark, input, pos)
  }

  /** The tokens before the lexeme at `pos`, with those that close what is indented more. */
  function Reduced(input: seq<Lexeme>, pos: nat): Laid
    requires pos < |input|
  {
    var f, mark := LaidDown(input, pos, pos), StartOf(input[pos]);
    if Level(input, pos) > 0 then f else Close(f, mark.column, mark)
  }

  /** The scanner stands at a lexeme, has forgotten stale keys and closed what is indented more. */
  ghost predicate TiesAt(b: Book, input: seq<Lexeme>, pos: nat) {
    && pos < |input| && (forall i :: 0 <= i < pos ==> input[i].Lexeme?)
    && b.flowLevel == Level(input, pos) && b.keyAllowed == AllowedAt(input, pos) && b.mark == StartOf(input[pos])
    && KeyTies(b.keys, Candidates(input, pos), b.mark, input, pos)
    && (forall i :: 0 <= i < |b.keys| && b.keys[i].possible ==> !TooFar(b.keys[i].mark, b.mark))
    && Matches(b, Reduced(input, pos))
  }

  lemma TopIs(b: Book, columns: seq<int>)
    requires b.indents + [b.indent] == [-1] + columns
    ensures b.indent == Top(columns) && |b.indents| == |columns|
    ensures columns != [] ==>
      Popped(b).indents + [Popped(b).indent] == [-1] + columns[..|columns| - 1]
  {
    var all := b.indents + [b.indent];
    assert all[|all| - 1] == b.indent;
    if columns != [] {
      assert all[..|all| - 1] == b.indents && ([-1] + columns)[..|columns|] == [-1] + columns[..|columns| - 1];
      var n := |b.indents| - 1;
      assert b.indents[..n] + [b.indents[n]] == b.indents;
    }
  }

  lemma {:induction false} UnrolledIs(b: Book, f: Laid, column: int)
    requires b.flowLevel == 0 && Matches(b, f)
    ensures Matches(Unrolled(b, column), Close(f, column, b.mark))
    decreases |f.columns|
  {
    TopIs(b, f.columns);
    if !(Top(f.columns) <= column || f.columns == []) {
      var f' := Laid(f.ts + [BareToken(BlockEndToken, b.mark)], f.columns[..|f.columns| - 1]);
      UnrolledIs(Popped(b), f', column);
    }
  }

  lemma UnrolledInFlow(b: Book, column: int)
    requires b.flowLevel > 0
    ensures Unrolled(b, column) == b
  {
  }

  lemma FarIsFarther(key: Mark, a: Mark, b: Mark)
    requires TooFar(key, a) && Follows(a, b)
    ensures TooFar(key, b)
  {
  }

  /** Forgetting stale keys. */
  lemma KeysForgotten(keys: seq<Key>, cs: seq<Option<nat>>, was: Mark, mark: Mark, input: seq<Lexeme>, pos: nat)
    requires pos <= |input| && KeyTies(keys, cs, was, input, pos) && Follows(was, mark) && !SomeRequired(keys, mark)
    ensures KeyTies(WithoutStale(keys, mark), cs, mark, input, pos)
    ensures forall i :: 0 <= i < |keys| && WithoutStale(keys, mark)[i].possible ==>
      !TooFar(WithoutStale(keys, mark)[i].mark, mark)
  {
    hide PlaceOf, MustBeKey;
    var keys' := WithoutStale(keys, mark);
    forall i | 0 <= i < |keys|
      ensures KeyTie(keys'[i], cs[i], mark, input, pos)
    {
      assert KeyTie(keys[i], cs[i], was, input, pos);
      assert !(keys[i].required && IsStale(keys[i], mark));
    }
  }

  lemma MarksFollow(input: seq<Lexeme>, pos: nat)
    requires ValidInput(input) && pos < |input| && forall i :: 0 <= i < pos ==> input[i].Lexeme?
    ensures Follows(MarkAfter(input, pos), StartOf(input[pos]))
    ensures MarkAfter(input, pos) == if pos == 0 then Mark(0, 0, 0) else EndOf(input[pos - 1])
  {
  }

  lemma GetsReady(b: Book, input: seq<Lexeme>, pos: nat)
    requires ValidInput(input) && Ties(b, input, pos) && pos < |input|
    ensures ReadyFor(b, input[pos]).Fine? ==> TiesAt(ReadyFor(b, input[pos]).book, input, pos)
    ensures ReadyFor(b, input[pos]).Fault? ==>
      ReadyFor(b, input[pos]).problem == EXPECTED_COLON && SomeRequired(b.keys, StartOf(input[pos]))
  {
    hide Candidates, LaidDown, AllowedAfter, Level, KeyTie, WithoutStale, TooFar, Close, Unrolled, SomeRequired;
    var l := input[pos];
    var m := MovedTo(b, l);
    MarksFollow(input, pos);
    if SomeRequired(m.keys, m.mark) {
      return;
    }
    KeysForgotten(b.keys, Candidates(input, pos), b.mark, m.mark, input, pos);
    var m' := m.(keys := WithoutStale(m.keys, m.mark));
    if b.flowLevel > 0 {
      UnrolledInFlow(m', m.mark.column);
    } else {
      UnrolledIs(m', LaidDown(input, pos, pos), m.mark.column);
    }
  }

  // ----- One lexeme --------------------------------------------------------------------

  /** No new key is found at the lexeme at `pos`. */
  predicate NoNewKey(input: seq<Lexeme>, pos: nat)
    requires pos < |input|
  {
    Has(input[pos], ValueToken) ==> KeyFor(input, pos) == None
  }

  lemma NoKeyYet(input: seq<Lexeme>, pos: nat)
    requires pos < |input|
    ensures !IsKey(input, pos, pos + 1)
  {
  }

  /** What is laid down for the lexeme at `pos`. */
  lemma LaidHere(input: seq<Lexeme>, pos: nat)
    requires pos < |input| && input[pos].Lexeme? && NoNewKey(input, pos)
    ensures var f, l := LaidDown(input, pos, pos), input[pos];
      var around := if Level(input, pos) > 0 then f
        else OpenedFor(ClosedFor(f, l), Opens(input, pos, pos + 1), l.token.start);
      LaidDown(input, pos + 1, pos + 1) == Laid(around.ts + [TokenOf(l)], around.columns)
  {
    hide KeyFor, IsKey, LaidDown, ClosedFor, OpenedFor;
    SameBefore(input, pos, pos);
    NoKeyYet(input, pos);
    LaidIs(input, pos, pos + 1);
    var f, l := LaidDown(input, pos, pos), input[pos];
    var around := if Level(input, pos) > 0 then f
      else OpenedFor(ClosedFor(f, l), Opens(input, pos, pos + 1), l.token.start);
    assert around.ts + [] == around.ts;
  }

  predicate IsPlain(l: Lexeme) {
    l.Lexeme? && !IsEnd(l) && !AtLineStart(l.token.typ)
  }

  /** A lexeme that opens no block collection. */
  lemma PlainLaid(input: seq<Lexeme>, pos: nat)
    requires pos < |input| && IsPlain(input[pos]) && NoNewKey(input, pos)
    requires Level(input, pos) > 0 || Opens(input, pos, pos + 1) == None
    ensures var f := Reduced(input, pos);
      LaidDown(input, pos + 1, pos + 1) == Laid(f.ts + [input[pos].token], f.columns)
  {
    hide KeyFor, IsKey, LaidDown, Close, Opens;
    LaidHere(input, pos);
  }

  /** A lexeme that opens a block collection, or goes on with it. */
  lemma OpeningLaid(input: seq<Lexeme>, pos: nat, b: Book, typ: TokenType)
    requires pos < |input| && IsPlain(input[pos]) && NoNewKey(input, pos) && Opens(input, pos, pos + 1) == Some(typ)
    requires Matches(b, Reduced(input, pos)) && b.mark == StartOf(input[pos]) && b.flowLevel == Level(input, pos)
    ensures var b' := Rolled(b, b.mark.column, |b.history|, typ, b.mark);
      Matches(b'.(history := b'.history + [input[pos].token]), LaidDown(input, pos + 1, pos + 1))
  {
    hide KeyFor, IsKey, LaidDown, Close, Opens;
    LaidHere(input, pos);
    var f := Reduced(input, pos);
    TopIs(b, f.columns);
    InsertLast(b.history, BareToken(typ, b.mark));
    if b.indent < b.mark.column {
      assert b.indents + [b.indent] + [b.mark.column] == [-1] + (f.columns + [b.mark.column]);
    }
  }

  lemma LineStartLaid(input: seq<Lexeme>, pos: nat, b: Book)
    requires pos < |input| && input[pos].Lexeme? && !IsEnd(input[pos]) && AtLineStart(input[pos].token.typ)
    requires Matches(b, Reduced(input, pos)) && b.mark == StartOf(input[pos]) && b.flowLevel == Level(input, pos)
    ensures var b' := Unrolled(b, -1);
      Matches(b'.(history := b'.history + [input[pos].token]), LaidDown(input, pos + 1, pos + 1))
  {
    hide KeyFor, IsKey, LaidDown, Close, Unrolled;
    LaidHere(input, pos);
    NeverKey(input, pos, pos + 1);
    if b.flowLevel == 0 {
      UnrolledIs(b, Reduced(input, pos), -1);
    } else {
      UnrolledInFlow(b, -1);
    }
  }

  lemma EndLaid(input: seq<Lexeme>, pos: nat, b: Book)
    requires pos < |input| && IsEnd(input[pos])
    requires Matches(b, Reduced(input, pos)) && b.mark == StartOf(input[pos]) && b.flowLevel == Level(input, pos)
    ensures var b' := Unrolled(b.(mark := ForcedLine(b.mark)), -1);
      Matches(b'.(history := b'.history + [BareToken(StreamEndToken, ForcedLine(b.mark))]),
        LaidDown(input, pos + 1, pos + 1))
  {
    hide KeyFor, IsKey, LaidDown, Close, Unrolled;
    LaidHere(input, pos);
    NeverKey(input, pos, pos + 1);
    var forced := b.(mark := ForcedLine(b.mark));
    if b.flowLevel == 0 {
      UnrolledIs(forced, Reduced(input, pos), -1);
    } else {
      UnrolledInFlow(forced, -1);
    }
  }

  /** A key that stays a candidate. */
  lemma KeyStays(key: Key, c: Option<nat>, mark: Mark, mark': Mark, input: seq<Lexeme>, pos: nat)
    requires pos < |input| && KeyTie(key, c, mark, input, pos) && Follows(mark, mark')
    requires c.Some? ==> c.value < pos && (!NoNewKey(input, pos) ==> c.value < KeyFor(input, pos).value)
    ensures KeyTie(key, c, mark', input, pos + 1)
  {
    hide KeyFor, LaidDown;
    if c.Some? {
      SameBefore(input, c.value + 1, pos);
    }
  }

  lemma KeysStay(keys: seq<Key>, cs: seq<Option<nat>>, mark: Mark, mark': Mark, input: seq<Lexeme>, pos: nat)
    requires pos < |input| && NoNewKey(input, pos) && KeyTies(keys, cs, mark, input, pos) && Follows(mark, mark')
    requires forall i :: 0 <= i < |cs| && cs[i].Some? ==> cs[i].value < pos
    ensures KeyTies(keys, cs, mark', input, pos + 1)
  {
    hide KeyFor, LaidDown, KeyTie;
    forall i | 0 <= i < |keys|
      ensures KeyTie(keys[i], cs[i], mark', input, pos + 1)
    {
      KeyStays(keys[i], cs[i], mark, mark', input, pos);
    }
  }

  lemma NoCandidate(key: Key, mark: Mark, input: seq<Lexeme>, pos: nat)
    requires pos <= |input| && !key.possible
    ensures KeyTie(key, None, mark, input, pos)
  {
  }

  /** The innermost key is given up. */
  lemma KeysWithout(keys: seq<Key>, cs: seq<Option<nat>>, key: Key, mark: Mark, input: seq<Lexeme>, pos: nat)
    requires pos <= |input| && keys != [] && KeyTies(keys, cs, mark, input, pos) && !key.possible
    ensures KeyTies(keys[|keys| - 1 := key], cs[|cs| - 1 := None], mark, input, pos)
  {
    hide KeyTie;
    NoCandidate(key, mark, input, pos);
  }

  lemma KeysMore(keys: seq<Key>, cs: seq<Option<nat>>, mark: Mark, input: seq<Lexeme>, pos: nat)
    requires pos <= |input| && KeyTies(keys, cs, mark, input, pos)
    ensures KeyTies(keys + [NO_KEY], cs + [None], mark, input, pos)
    ensures keys != [] ==> KeyTies(keys[..|keys| - 1], cs[..|cs| - 1], mark, input, pos)
  {
    hide KeyTie;
    NoCandidate(NO_KEY, mark, input, pos);
  }

  /** The scanner knows where the innermost key is. */
  lemma TiedIsSane(b: Book, input: seq<Lexeme>, pos: nat)
    requires TiesAt(b, input, pos)
    ensures Sane(b) && |b.keys| == b.flowLevel + 1 && |Candidates(input, pos)| == |b.keys|
    ensures b.keys[b.flowLevel].possible ==>
      KeyFor(input, pos).Some? && Candidates(input, pos)[b.flowLevel] == KeyFor(input, pos)
    ensures !b.keys[b.flowLevel].possible ==> KeyFor(input, pos) == None
  {
    hide LaidDown, Close, Candidates, TooFar;
    var key, c := b.keys[b.flowLevel], Candidates(input, pos)[b.flowLevel];
    assert KeyTie(key, c, b.mark, input, pos);
    if key.possible {
      LaidGrows(input, c.value + 1, pos, pos);
      ReducedGrows(input, pos);
    }
  }

  lemma ReducedGrows(input: seq<Lexeme>, pos: nat)
    requires pos < |input|
    ensures LaidDown(input, pos, pos).ts <= Reduced(input, pos).ts
  {
    hide Close, LaidDown;
  }

  /** What comes of the lexeme at `pos`. */
  ghost predicate Goes(r: Step, input: seq<Lexeme>, pos: nat) {
    match r
    case Fine(b) => Ties(b, input, pos + 1)
    case Fault(p) => ColonReason(input, p)
  }

  /** What comes of the keys. */
  ghost predicate KeysGo(r: Step, was: Book, cs: seq<Option<nat>>, mark: Mark, input: seq<Lexeme>, pos: nat) {
    match r
    case Fine(b) => pos < |input| && b == was.(keys := b.keys) && KeyTies(b.keys, cs, mark, input, pos + 1)
    case Fault(p) => ColonReason(input, p)
  }

  lemma RequiredKey(b: Book, input: seq<Lexeme>, pos: nat, i: nat, mark: Mark)
    requires pos <= |input| && KeyTies(b.keys, Candidates(input, pos), mark, input, pos)
    requires i < |b.keys| && b.keys[i].possible && b.keys[i].required
    requires pos == |input| || !Has(input[pos], ValueToken) || TooFar(b.keys[i].mark, StartOf(input[pos]))
    ensures exists n, k :: ColonMissing(input, n, k)
  {
    hide Candidates, LaidDown, MustBeKey;
    assert KeyTie(b.keys[i], Candidates(input, pos)[i], mark, input, pos);
    assert ColonMissing(input, pos, Candidates(input, pos)[i].value);
  }

  lemma StarterIsPlain(input: seq<Lexeme>, pos: nat)
    requires pos < |input| && IsStarter(input[pos])
    ensures IsPlain(input[pos]) && NoNewKey(input, pos) && Opens(input, pos, pos + 1) == None
  {
    hide KeyFor;
    NoKeyYet(input, pos);
  }

  lemma StarterFollows(input: seq<Lexeme>, pos: nat)
    requires ValidInput(input) && pos < |input| && input[pos].Lexeme?
    ensures Follows(StartOf(input[pos]), EndOf(input[pos]))
    ensures Follows(StartOf(input[pos]), ForcedLine(StartOf(input[pos])))
  {
    assert ValidLexeme(input[pos]);
  }

  /** A new simple key, where it is allowed. */
  lemma Saves(b: Book, input: seq<Lexeme>, pos: nat)
    requires ValidInput(input) && TiesAt(b, input, pos) && IsStarter(input[pos]) && Sane(b)
    ensures KeysGo(KeySaved(b), b, CandidatesWith(input, pos), EndOf(input[pos]), input, pos)
  {
    hide Candidates, LaidDown, AllowedAt, KeyFor, Close, IsStarter, ValidInput, Has, KeyTie, ColonMissing;
    var l, cs := input[pos], Candidates(input, pos);
    StarterIsPlain(input, pos);
    StarterFollows(input, pos);
    TiedIsSane(b, input, pos);
    KeysStay(b.keys, cs, b.mark, EndOf(l), input, pos);
    NoValueStarts(l);
    if b.keyAllowed {
      if b.keys[b.flowLevel].possible && b.keys[b.flowLevel].required {
        RequiredKey(b, input, pos, b.flowLevel, b.mark);
      } else {
        NewKey(b, input, pos);
      }
    }
  }

  lemma NoValueStarts(l: Lexeme)
    requires IsStarter(l)
    ensures !Has(l, ValueToken)
  {
  }

  lemma NewKey(b: Book, input: seq<Lexeme>, pos: nat)
    requires ValidInput(input) && TiesAt(b, input, pos) && IsStarter(input[pos])
    ensures KeyTie(Key(true, b.flowLevel == 0 && b.indent == b.mark.column, |b.history|, b.mark), Some(pos),
      EndOf(input[pos]), input, pos + 1)
  {
    hide Candidates, LaidDown, AllowedAt, KeyFor, Close, IsStarter, ValidInput, Opens;
    StarterIsPlain(input, pos);
    PlainLaid(input, pos);
    TopIs(b, Reduced(input, pos).columns);
  }

  /** The candidates behind a lexeme that may start a key. */
  function CandidatesWith(input: seq<Lexeme>, pos: nat): seq<Option<nat>>
    requires pos < |input|
  {
    var cs := Candidates(input, pos);
    if AllowedAt(input, pos) then cs[|cs| - 1 := Some(pos)] else cs
  }

  lemma AfterStarter(input: seq<Lexeme>, pos: nat)
    requires pos < |input| && IsStarter(input[pos])
    ensures Level(input, pos + 1) == Level(input, pos) + if StartsFlow(input[pos]) then 1 else 0
    ensures AllowedAfter(input, pos + 1) == (StartsFlow(input[pos]) || input[pos].leadingBlanks)
    ensures MarkAfter(input, pos + 1) == input[pos].after == EndOf(input[pos])
    ensures Candidates(input, pos + 1) ==
      if StartsFlow(input[pos]) then CandidatesWith(input, pos) + [None] else CandidatesWith(input, pos)
  {
    hide AllowedAt, KeyFor;
  }

  lemma TiedAgain(b: Book, input: seq<Lexeme>, n: nat)
    requires 0 < n <= |input| && forall i :: 0 <= i < n ==> input[i].Lexeme?
    requires b.flowLevel == Level(input, n) && b.keyAllowed == AllowedAfter(input, n) && b.mark == MarkAfter(input, n)
    requires Matches(b, LaidDown(input, n, n)) && KeyTies(b.keys, Candidates(input, n), b.mark, input, n)
    ensures Ties(b, input, n)
  {
  }

  /** The token of a lexeme that opens no block collection is taken. */
  lemma TakenMatches(b: Book, input: seq<Lexeme>, pos: nat)
    requires TiesAt(b, input, pos) && IsStarter(input[pos])
    ensures pos < |input| && b.flowLevel == Level(input, pos) && b.keyAllowed == AllowedAt(input, pos)
    ensures forall i :: 0 <= i < pos + 1 ==> input[i].Lexeme?
    ensures Matches(b.(history := b.history + [input[pos].token]), LaidDown(input, pos + 1, pos + 1))
  {
    hide LaidDown, Level, AllowedAt, KeyTies, Opens, IsStarter, Candidates, Reduced;
    StarterIsPlain(input, pos);
    PlainLaid(input, pos);
    StarterIs(input[pos]);
  }

  lemma ScannedGoes(b: Book, input: seq<Lexeme>, pos: nat)
    requires ValidInput(input) && TiesAt(b, input, pos) && IsStarter(input[pos]) && !StartsFlow(input[pos]) && Sane(b)
    ensures Goes(ScannedTaken(b, input[pos]), input, pos)
  {
    hide LaidDown, AllowedAt, AllowedAfter, Level, Candidates, MarkAfter, ValidInput, KeyTies, ColonReason, TiesAt,
      Ties,
      IsStarter;
    TakenMatches(b, input, pos);
    AfterStarter(input, pos);
    StarterIs(input[pos]);
    Saves(b, input, pos);
    var r := KeySaved(b);
    if r.Fine? {
      TiedAgain(Taken(r.book, input[pos], input[pos].leadingBlanks), input, pos + 1);
    }
  }

  lemma FlowStartGoes(b: Book, input: seq<Lexeme>, pos: nat)
    requires ValidInput(input) && TiesAt(b, input, pos) && StartsFlow(input[pos]) && Sane(b)
    ensures Goes(FlowStarted(b, input[pos]), input, pos)
  {
    hide LaidDown, AllowedAt, AllowedAfter, Level, Candidates, MarkAfter, ValidInput, KeyTies, ColonReason, TiesAt,
      Ties,
      CandidatesWith;
    TakenMatches(b, input, pos);
    AfterStarter(input, pos);
    Saves(b, input, pos);
    var r := KeySaved(b);
    if r.Fine? {
      CandidatesWithIs(input, pos);
      KeysMore(r.book.keys, CandidatesWith(input, pos), EndOf(input[pos]), input, pos + 1);
      var b' := r.book.(keys := r.book.keys + [NO_KEY], flowLevel := r.book.flowLevel + 1);
      TiedAgain(Taken(b', input[pos], true), input, pos + 1);
    }
  }

  lemma CandidatesWithIs(input: seq<Lexeme>, pos: nat)
    requires pos < |input|
    ensures var cs := Candidates(input, pos);
      CandidatesWith(input, pos) == if AllowedAt(input, pos) then cs[|cs| - 1 := Some(pos)] else cs
  {
  }

  /** The innermost key is given up, and nothing else starts one. */
  lemma Removes(b: Book, input: seq<Lexeme>, pos: nat, mark: Mark)
    requires ValidInput(input) && TiesAt(b, input, pos) && Sane(b) && Follows(b.mark, mark) && NoNewKey(input, pos)
    requires !Has(input[pos], ValueToken)
    ensures var cs := Candidates(input, pos); KeysGo(KeyRemoved(b), b, cs[|cs| - 1 := None], mark, input, pos)
  {
    hide Candidates, LaidDown, AllowedAt, KeyFor, Close, ValidInput, KeyTie, Has, ColonMissing;
    TiedIsSane(b, input, pos);
    var cs, key := Candidates(input, pos), b.keys[b.flowLevel];
    if key.possible && key.required {
      RequiredKey(b, input, pos, b.flowLevel, b.mark);
    } else {
      KeysStay(b.keys, cs, b.mark, mark, input, pos);
      KeysWithout(b.keys, cs, key.(possible := false), mark, input, pos + 1);
    }
  }

  /** Lexemes behind which the innermost key is over. */
  predicate IsRemover(l: Lexeme) {
    l.Lexeme? && !IsStarter(l) && !EndsFlow(l) && !Has(l, ValueToken) && !IsEnd(l)
  }

  lemma RemoverIs(input: seq<Lexeme>, pos: nat)
    requires pos < |input| && IsRemover(input[pos])
    ensures Level(input, pos + 1) == Level(input, pos) && NoNewKey(input, pos)
    ensures MarkAfter(input, pos + 1) == input[pos].after
    ensures var cs := Candidates(input, pos); Candidates(input, pos + 1) == cs[|cs| - 1 := None]
  {
    hide KeyFor, AllowedAt;
  }

  /** The token is taken, and the innermost key given up. */
  lemma AloneGoes(b: Book, b': Book, input: seq<Lexeme>, pos: nat, allowed: bool)
    requires ValidInput(input) && TiesAt(b, input, pos) && pos < |input| && IsRemover(input[pos]) && Sane(b)
    requires b'.keys == b.keys && b'.flowLevel == b.flowLevel && allowed == AllowedAfter(input, pos + 1)
    requires Matches(b'.(history := b'.history + [input[pos].token]), LaidDown(input, pos + 1, pos + 1))
    ensures Goes(TakenAlone(b', input[pos], allowed), input, pos)
  {
    hide LaidDown, AllowedAt, AllowedAfter, NoNewKey, ValidInput, KeyTies, ColonReason, Candidates, Level, TiesAt,
      Ties, IsRemover, MarkAfter;
    RemoverIs(input, pos);
    RemoverFollows(b, input, pos);
    Removes(b, input, pos, input[pos].after);
    var r := KeyRemoved(b);
    if r.Fine? {
      TiedAgain(Taken(b'.(keys := r.book.keys), input[pos], allowed), input, pos + 1);
    }
  }

  lemma RemoverFollows(b: Book, input: seq<Lexeme>, pos: nat)
    requires ValidInput(input) && TiesAt(b, input, pos) && IsRemover(input[pos])
    ensures Follows(b.mark, input[pos].after) && b.flowLevel == Level(input, pos) && input[pos].Lexeme?
    ensures !Has(input[pos], ValueToken) && forall i :: 0 <= i < pos + 1 ==> input[i].Lexeme?
  {
    hide ValidInput, KeyTies, LaidDown, Level, Candidates, AllowedAt;
    StarterFollows(input, pos);
  }

  // ----- Every kind of lexeme ----------------------------------------------------------

  /** Indicators and block scalars that open nothing: the token is taken, and the key given up. */
  lemma PlainGoes(b: Book, input: seq<Lexeme>, pos: nat)
    requires ValidInput(input) && TiesAt(b, input, pos) && Sane(b) && pos < |input|
    requires input[pos].Lexeme? && (input[pos].token.typ == FlowEntryToken || IsBlockScalar(input[pos].token))
    ensures Goes(TakenAlone(b, input[pos], true), input, pos)
  {
    hide LaidDown, AllowedAt, Level, Candidates, ValidInput, KeyTies, Goes, Close, TakenAlone;
    NeverKey(input, pos, pos + 1);
    PlainLaid(input, pos);
    AloneGoes(b, b, input, pos, true);
  }

  lemma LineStartGoes(b: Book, input: seq<Lexeme>, pos: nat)
    requires ValidInput(input) && TiesAt(b, input, pos) && Sane(b) && pos < |input|
    requires input[pos].Lexeme? && !IsEnd(input[pos]) && AtLineStart(input[pos].token.typ)
    ensures Goes(TakenAlone(Unrolled(b, -1), input[pos], false), input, pos)
  {
    hide LaidDown, AllowedAt, Level, Candidates, ValidInput, KeyTies, Goes, Close, TakenAlone, Unrolled;
    LineStartLaid(input, pos, b);
    AloneGoes(b, Unrolled(b, -1), input, pos, false);
  }

  /** "-" and "?". */
  lemma EntryGoes(b: Book, input: seq<Lexeme>, pos: nat, typ: TokenType, problem: string, allowed: bool)
    requires ValidInput(input) && TiesAt(b, input, pos) && Sane(b) && pos < |input|
    requires ScannerError(problem) != EXPECTED_COLON && allowed == AllowedAfter(input, pos + 1)
    requires (Has(input[pos], BlockEntryToken) && typ == BlockSequenceStartToken)
      || (Has(input[pos], KeyToken) && typ == BlockMappingStartToken)
    ensures Goes(EntryTaken(b, input[pos], typ, problem, allowed), input, pos)
  {
    hide LaidDown, AllowedAt, AllowedAfter, Level, Candidates, ValidInput, KeyTies, Ties, Close, TakenAlone, KeyFor;
    var b' := Rolled(b, b.mark.column, |b.history|, typ, b.mark);
    if b.flowLevel > 0 {
      NotRolled(b, b.mark.column, typ);
      PlainLaid(input, pos);
    } else {
      OpeningLaid(input, pos, b, typ);
    }
    AloneGoes(b, b', input, pos, allowed);
  }

  lemma TiedLength(keys: seq<Key>, cs: seq<Option<nat>>, mark: Mark, input: seq<Lexeme>, pos: nat)
    requires pos <= |input| && KeyTies(keys, cs, mark, input, pos)
    ensures |keys| == |cs|
  {
  }

  lemma KeysLeft(keys: seq<Key>, cs: seq<Option<nat>>, mark: Mark, input: seq<Lexeme>, pos: nat)
    requires pos <= |input| && cs != [] && KeyTies(keys, cs[|cs| - 1 := None], mark, input, pos)
    ensures |keys| == |cs| && KeyTies(keys[..|keys| - 1], cs[..|cs| - 1], mark, input, pos)
  {
    hide KeyTies;
    var gone := cs[|cs| - 1 := None];
    TiedLength(keys, gone, mark, input, pos);
    KeysMore(keys, gone, mark, input, pos);
    assert gone[..|cs| - 1] == cs[..|cs| - 1];
  }

  lemma FlowEndMatches(b: Book, input: seq<Lexeme>, pos: nat)
    requires TiesAt(b, input, pos) && pos < |input| && EndsFlow(input[pos])
    ensures b.flowLevel == Level(input, pos) && b.mark == StartOf(input[pos])
    ensures forall i :: 0 <= i < pos + 1 ==> input[i].Lexeme?
    ensures Matches(b.(history := b.history + [input[pos].token]), LaidDown(input, pos + 1, pos + 1))
  {
    hide LaidDown, AllowedAt, AllowedAfter, Level, Candidates, KeyTies, Close, KeyFor, MarkAfter, EndsFlow, Opens,
      NoNewKey;
    AfterFlowEnd(input, pos);
    PlainLaid(input, pos);
  }

  lemma MatchesToo(b: Book, b': Book, f: Laid)
    requires Matches(b, f) && b'.history == b.history && b'.indents == b.indents && b'.indent == b.indent
    ensures Matches(b', f)
  {
  }

  lemma FlowEndGoes(b: Book, input: seq<Lexeme>, pos: nat)
    requires ValidInput(input) && TiesAt(b, input, pos) && Sane(b) && pos < |input| && EndsFlow(input[pos])
    ensures Goes(FlowEnded(b, input[pos]), input, pos)
  {
    hide LaidDown, AllowedAt, AllowedAfter, Level, Candidates, ValidInput, KeyTies, ColonReason, Ties, KeyFor,
      MarkAfter, KeyRemoved, EndsFlow, Opens, NoNewKey, TiesAt, Matches, IsKey, IsStarter;
    AfterFlowEnd(input, pos);
    StarterFollows(input, pos);
    FlowEndMatches(b, input, pos);
    Removes(b, input, pos, input[pos].after);
    TiedIsSane(b, input, pos);
    var r, cs := KeyRemoved(b), Candidates(input, pos);
    if r.Fine? {
      KeysLeft(r.book.keys, cs, input[pos].after, input, pos + 1);
      var b' := if b.flowLevel == 0 then r.book
        else r.book.(keys := r.book.keys[..|r.book.keys| - 1], flowLevel := b.flowLevel - 1);
      var next := Taken(b', input[pos], false);
      MatchesToo(b.(history := b.history + [input[pos].token]), next, LaidDown(input, pos + 1, pos + 1));
      TiedAgain(next, input, pos + 1);
    }
  }

  lemma AfterFlowEnd(input: seq<Lexeme>, pos: nat)
    requires pos < |input| && EndsFlow(input[pos])
    ensures var d, cs := Level(input, pos), Candidates(input, pos);
      && Level(input, pos + 1) == (if d > 0 then d - 1 else 0) && !AllowedAfter(input, pos + 1)
      && MarkAfter(input, pos + 1) == input[pos].after
      && Candidates(input, pos + 1) == if d > 0 then cs[..|cs| - 1] else cs[|cs| - 1 := None]
    ensures NoNewKey(input, pos) && !Has(input[pos], ValueToken) && IsPlain(input[pos]) && !IsStarter(input[pos])
    ensures !IsKey(input, pos, pos + 1) && Opens(input, pos, pos + 1) == None
  {
    hide AllowedAt, KeyFor;
    NoKeyYet(input, pos);
  }

  lemma EndGoes(b: Book, input: seq<Lexeme>, pos: nat)
    requires ValidInput(input) && TiesAt(b, input, pos) && Sane(b) && pos < |input| && IsEnd(input[pos])
    ensures Goes(StreamEnded(b), input, pos)
  {
    hide LaidDown, AllowedAt, AllowedAfter, Level, Candidates, ValidInput, KeyTies, ColonReason, Ties, Close, KeyFor,
      MarkAfter, Unrolled;
    AfterEnd(input, pos);
    StarterFollows(input, pos);
    EndLaid(input, pos, b);
    var forced := ForcedLine(b.mark);
    Removes(b, input, pos, forced);
    var b' := Unrolled(b.(mark := forced), -1);
    var r, r' := KeyRemoved(b), KeyRemoved(b');
    if r.Fine? {
      TiedAgain(r'.book.(history := b'.history + [BareToken(StreamEndToken, forced)], keyAllowed := false), input,
        pos + 1);
    }
  }

  lemma AfterEnd(input: seq<Lexeme>, pos: nat)
    requires pos < |input| && IsEnd(input[pos])
    ensures var cs := Candidates(input, pos);
      && Level(input, pos + 1) == Level(input, pos) && !AllowedAfter(input, pos + 1)
      && MarkAfter(input, pos + 1) == ForcedLine(StartOf(input[pos]))
      && Candidates(input, pos + 1) == cs[|cs| - 1 := None]
    ensures NoNewKey(input, pos) && !Has(input[pos], ValueToken)
  {
    hide AllowedAt, KeyFor;
  }

  // ----- The ":" behind a key ----------------------------------------------------------

  lemma AfterValue(input: seq<Lexeme>, pos: nat)
    requires ValidInput(input) && pos < |input| && Has(input[pos], ValueToken)
    ensures var cs := Candidates(input, pos);
      && Level(input, pos + 1) == Level(input, pos) && MarkAfter(input, pos + 1) == input[pos].after
      && AllowedAfter(input, pos + 1) == (Level(input, pos) == 0 && KeyFor(input, pos) == None)
      && Candidates(input, pos + 1) == cs[|cs| - 1 := None]
    ensures Follows(StartOf(input[pos]), input[pos].after) && IsPlain(input[pos]) && !IsKey(input, pos, pos + 1)
  {
    hide AllowedAt, KeyFor, ValidInput;
    NoKeyYet(input, pos);
    StarterFollows(input, pos);
  }

  lemma InsertedTwice(ts: seq<Token>, p: nat, start: Mark, opens: bool)
    requires p <= |ts|
    ensures var one := Insert(ts, p, BareToken(KeyToken, start));
      Announced(ts, p, start, opens) == if opens then Insert(one, p, BareToken(BlockMappingStartToken, start)) else one
  {
    var one := Insert(ts, p, BareToken(KeyToken, start));
    assert one[..p] == ts[..p] && one[p..] == [BareToken(KeyToken, start)] + ts[p..];
  }

  lemma CloseNothing(f: Laid, column: int, mark: Mark)
    requires Top(f.columns) <= column
    ensures Close(f, column, mark) == f
  {
  }

  /** The place of a key on the line of its ":". */
  lemma KeyIsBefore(input: seq<Lexeme>, v: nat, k: nat)
    requires ValidInput(input) && v < |input| && KeyFor(input, v) == Some(k)
    requires forall i :: 0 <= i < v ==> input[i].Lexeme?
    ensures Level(input, k) == Level(input, v) && StartOf(input[k]).column < StartOf(input[v]).column
  {
    hide Candidates, ValidInput;
    KeyForIs(input, v);
    CandidateIs(input, v, Level(input, v));
    Later(input, k, v);
  }

  /** The ":" of a key that was announced before it is laid down alone. */
  lemma ValueLaid(input: seq<Lexeme>, v: nat, k: nat)
    requires ValidInput(input) && v < |input| && Has(input[v], ValueToken) && KeyFor(input, v) == Some(k)
    requires forall i :: 0 <= i < v ==> input[i].Lexeme?
    ensures Reduced(input, v) == LaidDown(input, v, v)
    ensures var f, f' := LaidDown(input, v, v), LaidDown(input, v + 1, v + 1);
      var p, start, opens := PlaceOf(input, k, v), StartOf(input[k]), OpensMapping(input, k, v);
      && 0 <= p < |f.ts| && f'.ts == Announced(f.ts, p, start, opens) + [input[v].token]
      && f'.columns == WithColumn(f.columns, opens, start.column)
    ensures Level(input, v) == 0 ==> Top(LaidDown(input, v, v).columns) == Top(LaidDown(input, k + 1, v).columns)
  {
    hide Candidates, LaidDown, LaidOne, KeyFor, Level, IsStarter, ValidInput, Announced, Close, IsKey;
    KeyIsBefore(input, v, k);
    KeyForIs(input, v);
    CandidateIs(input, v, Level(input, v));
    AfterValue(input, v);
    LaterLaid(input, v, k, v);
    KeyLaid(input, v, k);
    LaidIs(input, v, v + 1);
    var f, f' := LaidDown(input, v, v), LaidDown(input, v, v + 1);
    ValueAlone(f', input, v);
    if Level(input, v) == 0 {
      CloseNothing(f, input[v].token.start.column, input[v].token.start);
    }
  }

  lemma ValueAlone(f: Laid, input: seq<Lexeme>, v: nat)
    requires v < |input| && Has(input[v], ValueToken) && KeyFor(input, v).Some? && !IsKey(input, v, v + 1)
    requires Level(input, v) == 0 ==> Top(f.columns) <= input[v].token.start.column
    ensures LaidOne(f, input, v, v + 1) == Laid(f.ts + [input[v].token], f.columns)
  {
    hide KeyFor, Level, IsKey, Close;
    var start := input[v].token.start;
    if Level(input, v) == 0 {
      CloseNothing(f, start.column, start);
    }
    assert f.ts + [] == f.ts;
  }

  lemma KeyTaken(b: Book, input: seq<Lexeme>, pos: nat, k: nat)
    requires ValidInput(input) && TiesAt(b, input, pos) && Sane(b) && pos < |input| && Has(input[pos], ValueToken)
    requires b.keys[b.flowLevel].possible && KeyFor(input, pos) == Some(k)
    ensures var b' := KeyInserted(b);
      Matches(b'.(history := b'.history + [input[pos].token]), LaidDown(input, pos + 1, pos + 1))
  {
    hide LaidDown, AllowedAt, Level, ValidInput, KeyFor, Announced, Insert, Candidates;
    var key := b.keys[b.flowLevel];
    assert KeyTie(key, Candidates(input, pos)[b.flowLevel], b.mark, input, pos);
    KeyForIs(input, pos);
    KeyIsBefore(input, pos, k);
    ValueLaid(input, pos, k);
    TopIs(b, LaidDown(input, pos, pos).columns);
    InsertedTwice(b.history, key.tokenNumber, key.mark, OpensMapping(input, k, pos));
    assert b.indents + [b.indent] + [key.mark.column] == [-1] + (LaidDown(input, pos, pos).columns + [key.mark.column]);
  }

  /** The keys of the levels around stay where they are. */
  lemma OtherKeys(b: Book, input: seq<Lexeme>, pos: nat, key: Key)
    requires ValidInput(input) && TiesAt(b, input, pos) && Sane(b) && pos < |input| && Has(input[pos], ValueToken)
    requires !key.possible
    ensures var cs := Candidates(input, pos);
      KeyTies(b.keys[b.flowLevel := key], cs[|cs| - 1 := None], input[pos].after, input, pos + 1)
  {
    hide LaidDown, AllowedAt, Level, ValidInput, KeyFor, Candidates, KeyTie, NoNewKey;
    AfterValue(input, pos);
    TiedIsSane(b, input, pos);
    KeyForIs(input, pos);
    var cs := Candidates(input, pos);
    var top := b.flowLevel;
    var keys', cs' := b.keys[top := key], cs[top := None];
    forall i | 0 <= i < |keys'|
      ensures KeyTie(keys'[i], cs'[i], input[pos].after, input, pos + 1)
    {
      if i == top {
        NoCandidate(key, input[pos].after, input, pos + 1);
      } else {
        NewKeyIs(input, pos);
        if cs[i].Some? && cs[top].Some? {
          CandidatesIncrease(input, pos, i, top);
        }
        KeyStays(b.keys[i], cs[i], b.mark, input[pos].after, input, pos);
      }
    }
  }

  lemma NewKeyIs(input: seq<Lexeme>, pos: nat)
    requires pos < |input|
    ensures !NoNewKey(input, pos) ==> KeyFor(input, pos).Some?
  {
    hide KeyFor;
  }

  /** The token of a ":" without a key. */
  lemma LoneValue(b: Book, input: seq<Lexeme>, pos: nat)
    requires ValidInput(input) && TiesAt(b, input, pos) && pos < |input| && Has(input[pos], ValueToken)
    requires KeyFor(input, pos) == None
    ensures b.flowLevel > 0 ==>
      Matches(b.(history := b.history + [input[pos].token]), LaidDown(input, pos + 1, pos + 1))
    ensures var b' := Rolled(b, b.mark.column, |b.history|, BlockMappingStartToken, b.mark);
      b.flowLevel == 0 ==> Matches(b'.(history := b'.history + [input[pos].token]), LaidDown(input, pos + 1, pos + 1))
  {
    hide LaidDown, AllowedAt, Level, ValidInput, KeyFor, Candidates, KeyTies, Reduced;
    AfterValue(input, pos);
    if b.flowLevel > 0 {
      PlainLaid(input, pos);
    } else {
      OpeningLaid(input, pos, b, BlockMappingStartToken);
    }
  }

  lemma ValueGoes(b: Book, input: seq<Lexeme>, pos: nat)
    requires ValidInput(input) && TiesAt(b, input, pos) && Sane(b) && pos < |input| && Has(input[pos], ValueToken)
    ensures Goes(ValueTaken(b, input[pos]), input, pos)
  {
    hide LaidDown, AllowedAt, AllowedAfter, Level, Candidates, ValidInput, KeyTies, Ties, TiesAt, KeyFor, MarkAfter,
      KeyInserted, Rolled, ColonMissing;
    AfterValue(input, pos);
    TiedIsSane(b, input, pos);
    HereIs(b, input, pos);
    var key := b.keys[b.flowLevel];
    OtherKeys(b, input, pos, key.(possible := false));
    assert b.keys[b.flowLevel := key] == b.keys;
    if key.possible {
      KeyTaken(b, input, pos, KeyFor(input, pos).value);
      KeyInsertedIs(b);
      TiedAgain(Taken(KeyInserted(b), input[pos], false), input, pos + 1);
    } else {
      LoneValue(b, input, pos);
      if b.flowLevel > 0 {
        TiedAgain(Taken(b, input[pos], false), input, pos + 1);
      } else if b.keyAllowed {
        var b' := Rolled(b, b.mark.column, |b.history|, BlockMappingStartToken, b.mark);
        TiedAgain(Taken(b', input[pos], true), input, pos + 1);
      }
    }
  }

  lemma KeyInsertedIs(b: Book)
    requires Sane(b) && b.keys[b.flowLevel].possible
    ensures var b', key := KeyInserted(b), b.keys[b.flowLevel];
      b'.keys == b.keys[b.flowLevel := key.(possible := false)] && b'.flowLevel == b.flowLevel
  {
    hide Insert;
  }

  lemma HereIs(b: Book, input: seq<Lexeme>, pos: nat)
    requires TiesAt(b, input, pos) && pos < |input| && input[pos].Lexeme?
    ensures b.flowLevel == Level(input, pos) && forall i :: 0 <= i < pos + 1 ==> input[i].Lexeme?
  {
    hide LaidDown, AllowedAt, Level, KeyTies;
  }

  lemma BrokenGoes(b: Book, input: seq<Lexeme>, pos: nat)
    requires TiesAt(b, input, pos) && Sane(b) && pos < |input| && input[pos].Broken?
    ensures Goes(Fetched(b, input[pos]), input, pos)
  {
    hide LaidDown, AllowedAt, Level, Candidates, ColonMissing, Unrolled, KeyTie;
    TiedIsSane(b, input, pos);
    if b.keys[b.flowLevel].possible && b.keys[b.flowLevel].required {
      RequiredKey(b, input, pos, b.flowLevel, b.mark);
    }
  }

  lemma NextIsHere(b: Book, input: seq<Lexeme>, pos: nat)
    requires TiesAt(b, input, pos)
    ensures pos < |input| && b.flowLevel == Level(input, pos)
  {
    hide LaidDown, AllowedAt, Level, KeyTies;
  }

  lemma KeyAllows(input: seq<Lexeme>, pos: nat)
    requires pos < |input| && input[pos].Lexeme?
    ensures input[pos].token.typ == BlockEntryToken ==> AllowedAfter(input, pos + 1)
    ensures input[pos].token.typ == KeyToken ==> AllowedAfter(input, pos + 1) == (Level(input, pos) == 0)
  {
    hide Level, KeyFor;
  }

  /** Every lexeme that is fetched is laid down. */
  lemma Fetches(b: Book, input: seq<Lexeme>, pos: nat)
    requires ValidInput(input) && TiesAt(b, input, pos)
    ensures pos < |input| && Sane(b) && Goes(Fetched(b, input[pos]), input, pos)
  {
    hide TiesAt, ValidInput, Sane, TakenAlone, EntryTaken, StreamEnded, FlowStarted, FlowEnded, ValueTaken,
      ScannedTaken,
      Unrolled, Goes, AllowedAfter, Level;
    NextIsHere(b, input, pos);
    TiedIsSane(b, input, pos);
    var l := input[pos];
    if l.Strange? || (IsBlockScalar(l.token) && b.flowLevel > 0) {
      OtherProblem(input, pos, "found character that cannot start any token");
    } else if l.Broken? {
      BrokenGoes(b, input, pos);
    } else if IsEnd(l) {
      EndGoes(b, input, pos);
    } else if AtLineStart(l.token.typ) {
      LineStartGoes(b, input, pos);
    } else if IsBlockScalar(l.token) {
      PlainGoes(b, input, pos);
    } else if IsScanned(l.token.typ) {
      ScannedGoes(b, input, pos);
    } else {
      IndicatorGoes(b, input, pos);
    }
  }

  lemma OtherProblem(input: seq<Lexeme>, pos: nat, problem: string)
    requires ScannerError(problem) != EXPECTED_COLON
    ensures Goes(Fault(ScannerError(problem)), input, pos)
  {
  }

  lemma IndicatorGoes(b: Book, input: seq<Lexeme>, pos: nat)
    requires ValidInput(input) && TiesAt(b, input, pos) && pos < |input| && Sane(b) && b.flowLevel == Level(input, pos)
    requires var l := input[pos];
      l.Lexeme? && !IsEnd(l) && !AtLineStart(l.token.typ) && !IsBlockScalar(l.token) && !IsScanned(l.token.typ)
    ensures Goes(Fetched(b, input[pos]), input, pos)
  {
    hide TiesAt, ValidInput, Sane, TakenAlone, EntryTaken, StreamEnded, FlowStarted, FlowEnded, ValueTaken,
      ScannedTaken,
      Unrolled, Goes, AllowedAfter, Level;
    var l := input[pos];
    KeyAllows(input, pos);
    match l.token.typ {
      case FlowSequenceStartToken => FlowStartGoes(b, input, pos);
      case FlowMappingStartToken => FlowStartGoes(b, input, pos);
      case FlowSequenceEndToken => FlowEndGoes(b, input, pos);
      case FlowMappingEndToken => FlowEndGoes(b, input, pos);
      case FlowEntryToken => PlainGoes(b, input, pos);
      case BlockEntryToken =>
        EntryGoes(b, input, pos, BlockSequenceStartToken, "block sequence entries are not allowed in this context",
          true);
      case KeyToken =>
        EntryGoes(b, input, pos, BlockMappingStartToken, "mapping keys are not allowed in this context",
          b.flowLevel == 0);
      case ValueToken => ValueGoes(b, input, pos);
      case _ => NoOther(input, pos);
    }
  }

  lemma NoOther(input: seq<Lexeme>, pos: nat)
    requires ValidInput(input) && pos < |input| && input[pos].Lexeme?
    ensures !IsBlock(input[pos].token.typ) && input[pos].token.typ != StreamStartToken
  {
    assert ValidLexeme(input[pos]);
  }

  lemma StaleRequired(b: Book, input: seq<Lexeme>, pos: nat, mark: Mark)
    requires pos <= |input| && KeyTies(b.keys, Candidates(input, pos), b.mark, input, pos) && SomeRequired(b.keys, mark)
    requires pos < |input| ==> Follows(mark, StartOf(input[pos]))
    ensures ColonReason(input, EXPECTED_COLON)
  {
    hide Candidates, KeyTies, ColonMissing;
    var i :| 0 <= i < |b.keys| && b.keys[i].required && IsStale(b.keys[i], mark);
    if pos < |input| {
      FarIsFarther(b.keys[i].mark, mark, StartOf(input[pos]));
    }
    RequiredKey(b, input, pos, i, b.mark);
  }

  lemma NextGoes(b: Book, input: seq<Lexeme>, pos: nat)
    requires ValidInput(input) && Ties(b, input, pos) && pos < |input|
    ensures Goes(FetchedNext(b, input[pos]), input, pos)
  {
    hide ValidInput, KeyTies, ReadyFor, Fetched, TiesAt, ColonReason, SomeRequired, Sane, LaidDown, Candidates, Level,
      AllowedAfter;
    GetsReady(b, input, pos);
    var r := ReadyFor(b, input[pos]);
    if r.Fine? {
      Fetches(r.book, input, pos);
    } else {
      SameMark(StartOf(input[pos]));
      StaleRequired(b, input, pos, StartOf(input[pos]));
    }
  }

  lemma SameMark(m: Mark)
    ensures Follows(m, m)
  {
  }

  lemma Forgets(b: Book, input: seq<Lexeme>, pos: nat)
    requires Ties(b, input, pos) && !SomeRequired(b.keys, b.mark)
    ensures Ties(b.(keys := WithoutStale(b.keys, b.mark)), input, pos)
  {
    hide LaidDown, Candidates, Level, AllowedAfter, KeyTie, WithoutStale, TooFar, SomeRequired;
    KeysForgotten(b.keys, Candidates(input, pos), b.mark, b.mark, input, pos);
  }

  /** What was fetched is laid down, and an error has its reason. */
  ghost predicate Fetched1(r: Scan, input: seq<Lexeme>) {
    match r
    case At(b, n) => Ties(b, input, n)
    case Failed(p) => ColonReason(input, p)
  }

  lemma {:induction false} FetchingGoes(b: Book, input: seq<Lexeme>, pos: nat)
    requires ValidInput(input) && Ties(b, input, pos) && Waits(b) && NoEnd(b.history[..b.parsed])
    ensures Fetched1(Fetching(b, input, pos), input)
    decreases |input| - pos
  {
    hide ValidInput, Ties, Waits, Steady, FetchedNext, Fetching, ColonReason, SomeRequired, NoKeyAt, WithoutStale;
    FetchingIs(b, input, pos);
    var stale := b.(keys := WithoutStale(b.keys, b.mark));
    PosIn(b, input, pos);
    WaitsHere(b);
    if pos == |input| {
      EndWaits(b, input);
    }
    if b.parsed < |b.history| && SomeRequired(b.keys, b.mark) {
      TiesKeys(b, input, pos);
      StaleRequired(b, input, pos, b.mark);
    } else {
      if b.parsed < |b.history| {
        Forgets(b, input, pos);
      }
      if pos < |input| && !(b.parsed < |b.history| && NoKeyAt(stale.keys, b.parsed)) {
        var b' := if b.parsed < |b.history| then stale else b;
        NextGoes(b', input, pos);
        var r := FetchedNext(b', input[pos]);
        if r.Fine? {
          NextWaits(b, b', input[pos]);
          FetchingGoes(r.book, input, pos + 1);
        }
      } else {
        NothingFetched(b, input, pos);
      }
    }
  }

  /** Behind the last lexeme there is a token to deliver. */
  lemma EndWaits(b: Book, input: seq<Lexeme>)
    requires ValidInput(input) && Ties(b, input, |input|) && b.parsed <= |b.history| && NoEnd(b.history[..b.parsed])
    ensures b.parsed < |b.history|
  {
    hide ValidInput, KeyTies, LaidDown, AllowedAfter, Level, MarkAfter, Candidates;
    EndOfAll(input);
    assert b.history[..|b.history|] == b.history;
  }

  lemma NextWaits(b: Book, b': Book, l: Lexeme)
    requires Waits(b) && NoEnd(b.history[..b.parsed]) && FetchedNext(b', l).Fine?
    requires b' == b || b' == b.(keys := WithoutStale(b.keys, b.mark))
    ensures var r := FetchedNext(b', l).book; Waits(r) && NoEnd(r.history[..r.parsed])
  {
    hide FetchedNext, WithoutStale;
    KeysSteady(b, b);
    ForgetSteady(b, b.(keys := WithoutStale(b.keys, b.mark)), b.mark);
    NextSteady(b', l);
    var r := FetchedNext(b', l).book;
    assert r.history[..r.parsed] == b'.history[..b'.parsed];
  }

  lemma NothingFetched(b: Book, input: seq<Lexeme>, pos: nat)
    requires !(b.parsed < |b.history| && SomeRequired(b.keys, b.mark))
    requires var stale := b.(keys := WithoutStale(b.keys, b.mark));
      pos >= |input| || (b.parsed < |b.history| && NoKeyAt(stale.keys, b.parsed))
    ensures Fetching(b, input, pos) == At(b.(keys := WithoutStale(b.keys, b.mark)), pos)
  {
    hide FetchedNext, NoKeyAt, SomeRequired, WithoutStale;
  }

  lemma PosIn(b: Book, input: seq<Lexeme>, pos: nat)
    requires Ties(b, input, pos)
    ensures pos <= |input|
  {
    hide LaidDown, Candidates, Level, AllowedAfter, KeyTies;
  }

  lemma TiesKeys(b: Book, input: seq<Lexeme>, pos: nat)
    requires ValidInput(input) && Ties(b, input, pos)
    ensures pos <= |input| && KeyTies(b.keys, Candidates(input, pos), b.mark, input, pos)
    ensures pos < |input| ==> Follows(b.mark, StartOf(input[pos]))
  {
    hide LaidDown, Candidates, Level, AllowedAfter, KeyTies, ValidInput, MarkAfter;
    if pos < |input| {
      MarksFollow(input, pos);
    }
  }

  // ----- What is delivered stays -------------------------------------------------------

  /** Every possible key is still in the queue. */
  predicate Waits(b: Book) {
    b.parsed <= |b.history| && forall i :: 0 <= i < |b.keys| && b.keys[i].possible ==> b.parsed <= b.keys[i].tokenNumber
  }

  /** What was delivered stays, and the keys wait. */
  ghost predicate Steady(was: Book, b: Book) {
    Kept(was.history, b.history, was.parsed) && b.parsed == was.parsed && Waits(b)
  }

  lemma SteadyOn(a: Book, b: Book, c: Book)
    requires Steady(a, b) && Steady(b, c)
    ensures Steady(a, c)
  {
    hide Waits;
    KeptOn(a.history, b.history, c.history, a.parsed);
  }

  /** Tokens are appended. */
  lemma AppendSteady(b: Book, b': Book, more: seq<Token>)
    requires Waits(b) && b'.history == b.history + more && b'.keys == b.keys && b'.parsed == b.parsed
    ensures Steady(b, b')
  {
  }

  lemma {:induction false} UnrolledSteady(b: Book, column: int)
    requires Waits(b)
    ensures Steady(b, Unrolled(b, column))
    decreases |b.indents|
  {
    hide Steady, Waits;
    if b.flowLevel > 0 || b.indent <= column || b.indents == [] {
      AppendSteady(b, b, []);
    } else {
      var end := [BareToken(BlockEndToken, b.mark)];
      AppendSteady(b, Popped(b), end);
      SteadyWaits(b, Popped(b));
      UnrolledSteady(Popped(b), column);
      SteadyOn(b, Popped(b), Unrolled(Popped(b), column));
    }
  }

  lemma SteadyWaits(a: Book, b: Book)
    requires Steady(a, b)
    ensures Waits(b)
  {
  }

  lemma InsertSteady(b: Book, b': Book, p: nat, t: Token)
    requires Waits(b) && b.parsed <= p <= |b.history| && b'.history == Insert(b.history, p, t)
    requires b'.keys == b.keys && b'.parsed == b.parsed
    ensures Steady(b, b')
  {
    InsertParts(b.history, p, t, b.parsed);
  }

  lemma RolledSteady(b: Book, column: int, number: nat, typ: TokenType, at: Mark)
    requires Waits(b) && b.parsed <= number <= |b.history|
    ensures Steady(b, Rolled(b, column, number, typ, at))
  {
    hide Steady, Waits, Insert;
    AppendSteady(b, b, []);
    if !(b.flowLevel > 0 || b.indent >= column) {
      InsertSteady(b, Rolled(b, column, number, typ, at), number, BareToken(typ, at));
    }
  }

  /** Nothing but the keys changes: they are given up, or are at the end of the tokens. */
  lemma KeysSteady(b: Book, b': Book)
    requires Waits(b) && b'.history == b.history && b'.parsed == b.parsed
    requires forall i :: 0 <= i < |b'.keys| && b'.keys[i].possible ==>
      b'.keys[i].tokenNumber == |b.history| || (i < |b.keys| && b'.keys[i] == b.keys[i])
    ensures Steady(b, b')
  {
  }

  lemma SavedSteady(b: Book)
    requires Waits(b) && b.flowLevel < |b.keys|
    ensures KeySaved(b).Fine? ==> Steady(b, KeySaved(b).book)
    ensures KeyRemoved(b).Fine? ==> Steady(b, KeyRemoved(b).book)
    ensures KeySaved(b).Fine? ==> KeySaved(b).book.flowLevel == b.flowLevel && |KeySaved(b).book.keys| == |b.keys|
  {
    hide Steady;
    if KeySaved(b).Fine? {
      KeysSteady(b, KeySaved(b).book);
    }
    if KeyRemoved(b).Fine? {
      KeysSteady(b, KeyRemoved(b).book);
    }
  }

  lemma TakenSteady(a: Book, b: Book, l: Lexeme, allowed: bool)
    requires Steady(a, b) && l.Lexeme?
    ensures Steady(a, Taken(b, l, allowed))
  {
    hide Steady, Waits;
    SteadyWaits(a, b);
    AppendSteady(b, Taken(b, l, allowed), [l.token]);
    SteadyOn(a, b, Taken(b, l, allowed));
  }

  lemma AloneSteady(a: Book, b: Book, l: Lexeme, allowed: bool)
    requires Steady(a, b) && b.flowLevel < |b.keys| && !l.Strange?
    ensures TakenAlone(b, l, allowed).Fine? ==> Steady(a, TakenAlone(b, l, allowed).book)
  {
    hide Steady, Waits;
    SteadyWaits(a, b);
    SavedSteady(b);
    var r := KeyRemoved(b);
    if r.Fine? && l.Lexeme? {
      SteadyOn(a, b, r.book);
      TakenSteady(a, r.book, l, allowed);
    }
  }

  lemma EntrySteady(b: Book, l: Lexeme, typ: TokenType, problem: string, allowed: bool)
    requires Waits(b) && b.flowLevel < |b.keys| && l.Lexeme?
    ensures var r := EntryTaken(b, l, typ, problem, allowed); r.Fine? ==> Steady(b, r.book)
  {
    hide Steady, TakenAlone;
    RolledSteady(b, b.mark.column, |b.history|, typ, b.mark);
    AloneSteady(b, Rolled(b, b.mark.column, |b.history|, typ, b.mark), l, allowed);
  }

  lemma FlowSteady(b: Book, l: Lexeme)
    requires Waits(b) && b.flowLevel < |b.keys| && l.Lexeme?
    ensures FlowStarted(b, l).Fine? ==> Steady(b, FlowStarted(b, l).book)
    ensures FlowEnded(b, l).Fine? ==> Steady(b, FlowEnded(b, l).book)
  {
    hide Steady, Waits, KeySaved;
    SavedSteady(b);
    var s, r := KeySaved(b), KeyRemoved(b);
    if s.Fine? {
      var b' := s.book.(keys := s.book.keys + [NO_KEY], flowLevel := s.book.flowLevel + 1);
      SteadyWaits(b, s.book);
      KeysSteady(s.book, b');
      SteadyOn(b, s.book, b');
      TakenSteady(b, b', l, true);
    }
    if r.Fine? {
      var b' := if r.book.flowLevel == 0 then r.book
        else r.book.(keys := r.book.keys[..|r.book.keys| - 1], flowLevel := r.book.flowLevel - 1);
      SteadyWaits(b, r.book);
      KeysSteady(r.book, b');
      SteadyOn(b, r.book, b');
      TakenSteady(b, b', l, false);
    }
  }

  lemma InsertedSteady(b: Book)
    requires Waits(b) && Sane(b) && b.keys[b.flowLevel].possible
    ensures Steady(b, KeyInserted(b))
  {
    hide Steady, Insert, Rolled;
    var key := b.keys[b.flowLevel];
    var one := b.(history := Insert(b.history, key.tokenNumber, BareToken(KeyToken, key.mark)));
    InsertSteady(b, one, key.tokenNumber, BareToken(KeyToken, key.mark));
    SteadyWaits(b, one);
    var two := Rolled(one, key.mark.column, key.tokenNumber, BlockMappingStartToken, key.mark);
    RolledSteady(one, key.mark.column, key.tokenNumber, BlockMappingStartToken, key.mark);
    SteadyOn(b, one, two);
    SteadyWaits(b, two);
    KeysSteady(two, KeyInserted(b));
    SteadyOn(b, two, KeyInserted(b));
  }

  lemma ValueSteady(b: Book, l: Lexeme)
    requires Waits(b) && Sane(b) && l.Lexeme?
    ensures ValueTaken(b, l).Fine? ==> Steady(b, ValueTaken(b, l).book)
  {
    hide Steady, Waits, KeyInserted, Rolled;
    KeysSteady(b, b);
    if b.keys[b.flowLevel].possible {
      InsertedSteady(b);
      TakenSteady(b, KeyInserted(b), l, false);
    } else if b.flowLevel > 0 {
      TakenSteady(b, b, l, false);
    } else {
      WaitsHere(b);
      RolledSteady(b, b.mark.column, |b.history|, BlockMappingStartToken, b.mark);
      TakenSteady(b, Rolled(b, b.mark.column, |b.history|, BlockMappingStartToken, b.mark), l, true);
    }
  }

  lemma WaitsHere(b: Book)
    requires Waits(b)
    ensures b.parsed <= |b.history|
  {
  }

  lemma ScannedSteady(b: Book, l: Lexeme)
    requires Waits(b) && b.flowLevel < |b.keys| && !l.Strange?
    ensures ScannedTaken(b, l).Fine? ==> Steady(b, ScannedTaken(b, l).book)
  {
    hide Steady, Waits, KeySaved;
    SavedSteady(b);
    if KeySaved(b).Fine? && l.Lexeme? {
      TakenSteady(b, KeySaved(b).book, l, l.leadingBlanks);
    }
  }

  lemma EndSteady(b: Book)
    requires Waits(b) && b.flowLevel < |b.keys|
    ensures StreamEnded(b).Fine? ==> Steady(b, StreamEnded(b).book)
  {
    hide Steady, Waits, Unrolled;
    var forced := b.(mark := ForcedLine(b.mark));
    AppendSteady(b, forced, []);
    SteadyWaits(b, forced);
    UnrolledSteady(forced, -1);
    SteadyOn(b, forced, Unrolled(forced, -1));
    SteadyWaits(b, Unrolled(forced, -1));
    SavedSteady(Unrolled(forced, -1));
    var r := KeyRemoved(Unrolled(forced, -1));
    if r.Fine? {
      SteadyOn(b, Unrolled(forced, -1), r.book);
      SteadyWaits(b, r.book);
      var end := BareToken(StreamEndToken, r.book.mark);
      AppendSteady(r.book, r.book.(history := r.book.history + [end], keyAllowed := false), [end]);
      SteadyOn(b, r.book, r.book.(history := r.book.history + [end], keyAllowed := false));
    }
  }

  lemma FetchedSteady(b: Book, l: Lexeme)
    requires Waits(b) && Sane(b)
    ensures Fetched(b, l).Fine? ==> Steady(b, Fetched(b, l).book)
  {
    hide Steady, Waits, TakenAlone, EntryTaken, StreamEnded, FlowStarted, FlowEnded, ValueTaken, ScannedTaken, Unrolled;
    KeysSteady(b, b);
    EndSteady(b);
    UnrolledSteady(b, -1);
    if !l.Strange? {
      AloneSteady(b, Unrolled(b, -1), l, false);
      AloneSteady(b, b, l, true);
      ScannedSteady(b, l);
    }
    if l.Lexeme? {
      FlowSteady(b, l);
      EntrySteady(b, l, BlockSequenceStartToken, "block sequence entries are not allowed in this context", true);
      EntrySteady(b, l, BlockMappingStartToken, "mapping keys are not allowed in this context", b.flowLevel == 0);
      ValueSteady(b, l);
    }
  }

  lemma NextSteady(b: Book, l: Lexeme)
    requires Waits(b)
    ensures FetchedNext(b, l).Fine? ==> Steady(b, FetchedNext(b, l).book)
  {
    hide Steady, Waits, Fetched, Unrolled, SomeRequired, WithoutStale, Sane;
    var m := MovedTo(b, l);
    var forgot := m.(keys := WithoutStale(m.keys, m.mark));
    var ready := Unrolled(forgot, m.mark.column);
    ForgetSteady(b, forgot, m.mark);
    SteadyWaits(b, forgot);
    UnrolledSteady(forgot, m.mark.column);
    SteadyOn(b, forgot, ready);
    SteadyWaits(b, ready);
    if Sane(ready) {
      FetchedSteady(ready, l);
      var r := Fetched(ready, l);
      if r.Fine? {
        SteadyOn(b, ready, r.book);
      }
    }
  }

  lemma ForgetSteady(b: Book, b': Book, mark: Mark)
    requires Waits(b) && b'.history == b.history && b'.parsed == b.parsed && b'.keys == WithoutStale(b.keys, mark)
    ensures Steady(b, b')
  {
    KeysSteady(b, b');
  }

  // ----- The whole text ----------------------------------------------------------------

  /** Only the end of the stream gives STREAM-END. */
  lemma {:induction false} EndIsEnd(input: seq<Lexeme>, n: nat, m: nat)
    requires ValidInput(input) && n < |input| && m <= |input|
    ensures NoEnd(LaidDown(input, n, m).ts)
    decreases n
  {
    hide ValidInput, LaidOne, NoEnd;
    if n > 0 {
      EndIsEnd(input, n - 1, m);
      NotTheEnd(input, n - 1);
      LaidIs(input, n - 1, m);
      OneHasNoEnd(LaidDown(input, n - 1, m), input, n - 1, m);
    } else {
      FirstNoEnd();
    }
  }

  lemma FirstNoEnd()
    ensures NoEnd([BareToken(StreamStartToken, Mark(0, 0, 0))])
  {
  }

  lemma OneHasNoEnd(f: Laid, input: seq<Lexeme>, n: nat, m: nat)
    requires n < |input| && m <= |input| && NoEnd(f.ts) && !IsEnd(input[n])
    ensures NoEnd(LaidOne(f, input, n, m).ts)
  {
    hide ClosedFor, IsKey, KeyFor, Opens, Level;
    if input[n].Lexeme? {
      ClosedHasNoEnd(f, input[n]);
      OpensBlock(input, n, m);
    }
  }

  lemma OpensBlock(input: seq<Lexeme>, n: nat, m: nat)
    requires n < |input| && m <= |input|
    ensures Opens(input, n, m).Some? ==> IsBlockStart(Opens(input, n, m).value)
  {
    hide IsKey, KeyFor;
  }

  lemma NotTheEnd(input: seq<Lexeme>, n: nat)
    requires ValidInput(input) && n < |input|
    ensures IsEnd(input[n]) <==> n == |input| - 1
    ensures input[n].Lexeme? ==> IsEnd(input[n]) == (input[n].token.typ == StreamEndToken)
  {
  }

  lemma {:induction false} CloseHasNoEnd(f: Laid, column: int, mark: Mark)
    requires NoEnd(f.ts)
    ensures NoEnd(Close(f, column, mark).ts)
    decreases |f.columns|
  {
    if !(Top(f.columns) <= column || f.columns == []) {
      CloseHasNoEnd(Laid(f.ts + [BareToken(BlockEndToken, mark)], f.columns[..|f.columns| - 1]), column, mark);
    }
  }

  lemma ClosedHasNoEnd(f: Laid, l: Lexeme)
    requires NoEnd(f.ts) && l.Lexeme?
    ensures NoEnd(ClosedFor(f, l).ts)
  {
    hide Close, NoEnd;
    var start := l.token.start;
    CloseHasNoEnd(f, start.column, start);
    CloseHasNoEnd(Close(f, start.column, start), -1, start);
    CloseHasNoEnd(Close(f, start.column, start), -1, ForcedLine(start));
  }

  /** STREAM-END is the last token of a whole text, and only that. */
  lemma EndOfAll(input: seq<Lexeme>)
    requires ValidInput(input)
    ensures var ts := LaidDown(input, |input|, |input|).ts;
      && ts != [] && ts[|ts| - 1].typ == StreamEndToken && NoEnd(ts[..|ts| - 1])
  {
    hide ValidInput, Close, IsKey, KeyFor, LaidDown, Opens, Level;
    NotEmpty(input);
    var n := |input| - 1;
    NotTheEnd(input, n);
    EndIsEnd(input, n, |input|);
    LaidIs(input, n, |input|);
    NeverKey(input, n, |input|);
    var f := LaidDown(input, n, |input|);
    ClosedHasNoEnd(f, input[n]);
    var around := if Level(input, n) > 0 then f else OpenedFor(ClosedFor(f, input[n]), Opens(input, n, |input|),
      input[n].token.start);
    EndOpensNothing(input, n);
    assert around.ts + [] == around.ts;
    var ts := LaidDown(input, |input|, |input|).ts;
    assert ts == around.ts + [TokenOf(input[n])] && ts[..|ts| - 1] == around.ts;
  }

  lemma EndOpensNothing(input: seq<Lexeme>, n: nat)
    requires n < |input| && IsEnd(input[n]) && !IsKey(input, n, |input|)
    ensures Opens(input, n, |input|) == None
  {
    hide IsKey, KeyFor;
  }

  /** Behind the end of the stream there is no simple key any more. */
  lemma NoKeysLeft(b: Book, input: seq<Lexeme>)
    requires ValidInput(input) && Ties(b, input, |input|)
    ensures var keys := WithoutStale(b.keys, b.mark); forall i :: 0 <= i < |keys| ==> !keys[i].possible
  {
    hide ValidInput, LaidDown, Candidates, Level, AllowedAfter, Matches, IsStarter, AllowedAt;
    NotEmpty(input);
    var n := |input| - 1;
    NotTheEnd(input, n);
    var keys, cs := WithoutStale(b.keys, b.mark), Candidates(input, |input|);
    forall i | 0 <= i < |keys|
      ensures !keys[i].possible
    {
      assert KeyTie(b.keys[i], cs[i], b.mark, input, |input|);
      if b.keys[i].possible {
        CandidateIs(input, |input|, i);
        EndNoStarter(input[n]);
        Later(input, cs[i].value, n);
      }
    }
  }

  lemma EndNoStarter(l: Lexeme)
    requires IsEnd(l)
    ensures !IsStarter(l)
  {
  }

  lemma {:induction false} FetchingSteady(b: Book, input: seq<Lexeme>, pos: nat)
    requires ValidInput(input) && Ties(b, input, pos) && Waits(b) && NoEnd(b.history[..b.parsed])
    ensures var r := Fetching(b, input, pos);
      r.At? ==>
        && Steady(b, r.book) && r.pos <= |input| && NoKeyAt(r.book.keys, b.parsed)
        && (r.pos < |input| ==> b.parsed < |r.book.history|)
    decreases |input| - pos
  {
    hide ValidInput, Ties, Waits, Steady, FetchedNext, Fetching, SomeRequired, NoKeyAt, WithoutStale;
    FetchingIs(b, input, pos);
    var stale := b.(keys := WithoutStale(b.keys, b.mark));
    ForgetSteady(b, stale, b.mark);
    SteadyWaits(b, stale);
    PosIn(b, input, pos);
    if b.parsed < |b.history| && SomeRequired(b.keys, b.mark) {
    } else if pos < |input| && !(b.parsed < |b.history| && NoKeyAt(stale.keys, b.parsed)) {
      var b' := if b.parsed < |b.history| then stale else b;
      if b.parsed < |b.history| {
        Forgets(b, input, pos);
      }
      KeysSteady(b, b);
      NextGoes(b', input, pos);
      NextSteady(b', input[pos]);
      var r := FetchedNext(b', input[pos]);
      if r.Fine? {
        NextWaits(b, b', input[pos]);
        SteadyOn(b, b', r.book);
        FetchingSteady(r.book, input, pos + 1);
        if Fetching(r.book, input, pos + 1).At? {
          SteadyOn(b, r.book, Fetching(r.book, input, pos + 1).book);
        }
      }
    } else {
      NothingFetched(b, input, pos);
      if pos == |input| {
        NoKeysLeft(b, input);
        NoneThere(stale.keys, b.parsed);
      }
    }
  }

  lemma NoneThere(keys: seq<Key>, n: nat)
    requires forall i :: 0 <= i < |keys| ==> !keys[i].possible
    ensures NoKeyAt(keys, n)
  {
  }

  /** The tokens `ts` are delivered behind those before, up to the end or an error. */
  ghost predicate Delivers(input: seq<Lexeme>, before: seq<Token>, r: (seq<Token>, Problem)) {
    if r.1 == NoProblem then before + r.0 == LaidDown(input, |input|, |input|).ts
    else ColonReason(input, r.1) && exists n: nat :: n <= |input| && before + r.0 <= LaidDown(input, n, n).ts
  }

  lemma Fails(b: Book, input: seq<Lexeme>, pos: nat, p: Problem)
    requires Ties(b, input, pos) && b.parsed <= |b.history| && ColonReason(input, p)
    ensures Delivers(input, b.history[..b.parsed], ([], p))
  {
    hide ColonReason, KeyTies, LaidDown;
    FailsAt(input, p);
    assert b.history[..b.parsed] + [] == b.history[..b.parsed];
    assert pos <= |input| && b.history[..b.parsed] <= LaidDown(input, pos, pos).ts;
  }

  lemma FailsAt(input: seq<Lexeme>, p: Problem)
    requires ColonReason(input, p)
    ensures p != NoProblem
  {
  }

  /** One token is delivered; if it is STREAM-END, it is the last. */
  lemma DeliversOne(was: Book, b: Book, input: seq<Lexeme>, n: nat, rest: (seq<Token>, Problem))
    requires ValidInput(input) && Ties(b, input, n) && Steady(was, b) && b.parsed < |b.history|
    requires var t := b.history[b.parsed];
      if t.typ == StreamEndToken then rest == ([], NoProblem)
      else Delivers(input, b.history[..b.parsed + 1], rest)
    ensures Delivers(input, was.history[..was.parsed], ([b.history[b.parsed]] + rest.0, rest.1))
  {
    hide ColonReason, KeyTies, LaidDown, ValidInput, AllowedAfter, Level, MarkAfter, Candidates;
    var t := b.history[b.parsed];
    var before := was.history[..was.parsed];
    assert before + [t] == b.history[..b.parsed + 1];
    assert before + ([t] + rest.0) == before + [t] + rest.0;
    if t.typ == StreamEndToken {
      if n < |input| {
        EndIsEnd(input, n, n);
        assert false;
      }
      EndOfAll(input);
      LastOne(b.history, b.parsed);
      assert b.history[..b.parsed + 1] == b.history;
    }
  }

  lemma LastOne(ts: seq<Token>, k: nat)
    requires k < |ts| && ts[k].typ == StreamEndToken && NoEnd(ts[..|ts| - 1])
    ensures k == |ts| - 1
  {
    var init := ts[..|ts| - 1];
    assert forall i :: 0 <= i < |init| ==> init[i] == ts[i];
  }

  lemma {:induction false} Scans(b: Book, input: seq<Lexeme>, pos: nat)
    requires ValidInput(input) && Ties(b, input, pos) && Waits(b) && NoEnd(b.history[..b.parsed])
    ensures Delivers(input, b.history[..b.parsed], Scanning(b, input, pos))
    decreases |input| - pos, |b.history| - b.parsed
  {
    hide ValidInput, Ties, Waits, Steady, Fetching, Scanning, ColonReason, NoKeyAt, Delivers, LaidDown;
    FetchingGoes(b, input, pos);
    FetchingSteady(b, input, pos);
    ScanningIs(b, input, pos);
    WaitsHere(b);
    match Fetching(b, input, pos) {
      case Failed(p) => Fails(b, input, pos, p);
      case At(b', n) =>
        PosIn(b', input, n);
        StillMore(b, b', input, n);
        var t := b'.history[b'.parsed];
        if t.typ != StreamEndToken {
          var next := b'.(parsed := b'.parsed + 1);
          DeliveredTies(b', input, n);
          DeliveredWaits(b, b');
          Scans(next, input, n);
          DeliversOne(b, b', input, n, Scanning(next, input, n));
        } else {
          DeliversOne(b, b', input, n, ([], NoProblem));
          assert [t] + [] == [t];
        }
    }
  }

  lemma DeliveredTies(b: Book, input: seq<Lexeme>, pos: nat)
    requires Ties(b, input, pos)
    ensures Ties(b.(parsed := b.parsed + 1), input, pos)
  {
    hide KeyTies, LaidDown, AllowedAfter, Level, MarkAfter, Candidates;
  }

  lemma DeliveredWaits(was: Book, b: Book)
    requires Steady(was, b) && NoKeyAt(b.keys, was.parsed) && b.parsed < |b.history|
    requires NoEnd(was.history[..was.parsed]) && b.history[b.parsed].typ != StreamEndToken
    ensures Waits(b.(parsed := b.parsed + 1)) && NoEnd(b.history[..b.parsed + 1]) && b.parsed == was.parsed
  {
    assert b.history[..b.parsed + 1] == was.history[..was.parsed] + [b.history[b.parsed]];
  }

  /** Before STREAM-END is delivered, there is more to deliver. */
  lemma StillMore(was: Book, b: Book, input: seq<Lexeme>, n: nat)
    requires ValidInput(input) && Ties(b, input, n) && Steady(was, b) && NoEnd(was.history[..was.parsed])
    requires n < |input| ==> b.parsed < |b.history|
    ensures b.parsed < |b.history|
  {
    hide ValidInput, KeyTies, LaidDown, AllowedAfter, Level, MarkAfter, Candidates, Waits;
    if n == |input| {
      EndOfAll(input);
      var gone := was.history[..was.parsed];
      assert forall i :: 0 <= i < |gone| ==> gone[i] == b.history[..was.parsed][i];
    }
  }

  /** The scanner delivers the tokens that are laid down with unlimited lookahead, and reports a missing ":" only where
    * one is missing. */
  lemma ScansAhead(input: seq<Lexeme>)
    requires ValidInput(input)
    ensures var (ts, problem) := Scanning(STARTED, input, 0);
      if problem == NoProblem then ts == LaidDown(input, |input|, |input|).ts
      else ColonReason(input, problem) && exists n: nat :: n <= |input| && ts <= LaidDown(input, n, n).ts
  {
    hide ValidInput, Scanning, ColonReason, LaidDown;
    StartedTies(input);
    Scans(STARTED, input, 0);
    var r := Scanning(STARTED, input, 0);
    assert [] + r.0 == r.0 && STARTED.history[..0] == [];
  }

  lemma StartedTies(input: seq<Lexeme>)
    ensures Ties(STARTED, input, 0) && Waits(STARTED) && NoEnd(STARTED.history[..0])
  {
    assert STARTED.indents + [STARTED.indent] == [-1] + [];
  }
}
