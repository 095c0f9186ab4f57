/** Where the scanner stops: the first lexeme that cannot be where it is, or at which one that must
  * be a simple key is given up. */
module YamlRefusals {
  import opened Options
  import opened YamlEvents
  import opened YamlTokens
  import opened YamlScanner
  import opened YamlLookahead

  /** Is the simple key before the lexeme at `n` given up, unless that makes a key of it? */
  predicate GivesUp(input: seq<Lexeme>, n: nat)
    requires n < |input|
  {
    var l := input[n];
    l.Broken? || (l.Lexeme? && !Has(l, ValueToken) && (IsStarter(l) ==> AllowedAt(input, n)))
  }

  /** A lexeme must be a key, and by the lexeme at `n` it is too far back or given up. */
  ghost predicate KeyLost(input: seq<Lexeme>, n: nat)
    requires n <= |input|
  {
    exists k: nat :: LosesKey(input, n, k)
  }

  ghost predicate LosesKey(input: seq<Lexeme>, n: nat, k: nat)
    requires n <= |input|
  {
    && k < n && Some(k) in Candidates(input, n) && MustBeKey(input, k, n)
    && (n < |input| && !TooFar(StartOf(input[k]), StartOf(input[n])) ==>
          Candidates(input, n)[Level(input, n)] == Some(k) && GivesUp(input, n))
  }

  /** Is the lexeme at `n` at the column of the block collection that it is in? */
  predicate AtColumn(input: seq<Lexeme>, n: nat)
    requires n < |input|
  {
    Top(Reduced(input, n).columns) == StartOf(input[n]).column
  }

  /** The lexeme at `n` cannot be there: no token can start with it, it is broken itself, or it
    * starts an entry, a key or a value in block context where that is not allowed. */
  predicate Refused(input: seq<Lexeme>, n: nat, p: Problem)
    requires n < |input|
  {
    var l := input[n];
    var lone := Level(input, n) == 0 && !AllowedAt(input, n);
    match p
    case NoProblem => false
    case ShouldNotHappen => lone && AtColumn(input, n) && (l.Broken? || IsStarter(l))
    case ScannerError(what) =>
      || (what == "found character that cannot start any token"
          && (l.Strange? || (IsBlockScalar(l.token) && Level(input, n) > 0)))
      || (l.Broken? && what == l.problem)
      || (what == "block sequence entries are not allowed in this context" && lone && Has(l, BlockEntryToken))
      || (what == "mapping keys are not allowed in this context" && lone && Has(l, KeyToken))
      || (what == "mapping values are not allowed in this context" && lone && Has(l, ValueToken)
          && KeyFor(input, n) == None)
  }

  /** What can be reported at the lexeme at `n`, or at the end of the text. */
  ghost predicate ProblemAt(input: seq<Lexeme>, n: nat, p: Problem)
    requires n <= |input|
  {
    (p == ScannerError("could not find expected ':'") && KeyLost(input, n)) || (n < |input| && Refused(input, n, p))
  }

  ghost predicate Sound(input: seq<Lexeme>, n: nat)
    requires n <= |input|
  {
    forall p :: !ProblemAt(input, n, p)
  }

  /** The first problem of the lexemes from `from` on. */
  ghost predicate FirstProblem(input: seq<Lexeme>, from: nat, n: nat, p: Problem) {
    from <= n <= |input| && ProblemAt(input, n, p) && forall i :: from <= i < n ==> Sound(input, i)
  }

  // ----- One lexeme -----------------------------------------------------------------------

  /** What comes of the lexeme at `n` is what can be reported there. */
  ghost predicate Judged(r: Step, input: seq<Lexeme>, n: nat)
    requires n <= |input|
  {
    match r
    case Fault(p) => ProblemAt(input, n, p)
    case Fine(_) => Sound(input, n)
  }

  /** The innermost key, as the scanner knows it. */
  lemma InnerKey(b: Book, input: seq<Lexeme>, pos: nat)
    requires TiesAt(b, input, pos)
    ensures b.flowLevel == Level(input, pos) && |b.keys| == b.flowLevel + 1 && Sane(b)
    ensures b.keyAllowed == AllowedAt(input, pos) && b.mark == StartOf(input[pos])
    ensures b.keys[b.flowLevel].possible <==> KeyFor(input, pos).Some?
    ensures b.keys[b.flowLevel].possible && b.keys[b.flowLevel].required && GivesUp(input, pos) ==> KeyLost(input, pos)
    ensures KeyLost(input, pos) ==>
      b.keys[b.flowLevel].possible && b.keys[b.flowLevel].required && GivesUp(input, pos)
    ensures (b.indent == b.mark.column) == AtColumn(input, pos)
  {
    hide LaidDown, Candidates, Level, AllowedAt, GivesUp, MustBeKey, TooFar;
    TiedIsSane(b, input, pos);
    TopIs(b, Reduced(input, pos).columns);
    var key, cs := b.keys[b.flowLevel], Candidates(input, pos);
    assert KeyTie(key, cs[b.flowLevel], b.mark, input, pos);
    if key.possible && key.required && GivesUp(input, pos) {
      assert LosesKey(input, pos, cs[b.flowLevel].value);
    }
    if KeyLost(input, pos) {
      var k: nat :| LosesKey(input, pos, k);
      var i :| 0 <= i < |cs| && cs[i] == Some(k);
      assert KeyTie(b.keys[i], cs[i], b.mark, input, pos);
    }
  }

  lemma IsSound(input: seq<Lexeme>, pos: nat)
    requires pos < |input| && !KeyLost(input, pos) && forall p :: !Refused(input, pos, p)
    ensures Sound(input, pos)
  {
    hide KeyLost, Refused;
  }

  lemma Reported(input: seq<Lexeme>, pos: nat, p: Problem)
    requires pos < |input| && (Refused(input, pos, p) || (p == EXPECTED_COLON && KeyLost(input, pos)))
    ensures ProblemAt(input, pos, p)
  {
    hide KeyLost, Refused;
  }

  /** The key is removed. */
  lemma RemovedJudged(b: Book, m: Book, input: seq<Lexeme>, pos: nat)
    requires TiesAt(b, input, pos) && GivesUp(input, pos) && m.keys == b.keys && m.flowLevel == b.flowLevel
    ensures m.flowLevel < |m.keys|
    ensures KeyRemoved(m).Fault? <==> KeyLost(input, pos)
    ensures KeyRemoved(m).Fault? ==> KeyRemoved(m).problem == EXPECTED_COLON
  {
    hide GivesUp, KeyLost, Candidates, LaidDown, AllowedAt, Level;
    InnerKey(b, input, pos);
  }

  /** A key is saved, if one may start. */
  lemma SavedJudged(b: Book, input: seq<Lexeme>, pos: nat)
    requires TiesAt(b, input, pos) && (input[pos].Broken? || IsStarter(input[pos])) && !Has(input[pos], ValueToken)
    ensures b.flowLevel < |b.keys|
    ensures KeySaved(b).Fault? ==> ProblemAt(input, pos, KeySaved(b).problem)
    ensures KeySaved(b).Fine? ==> !Refused(input, pos, ShouldNotHappen) && (input[pos].Lexeme? ==> !KeyLost(input, pos))
  {
    hide KeyLost, Candidates, LaidDown, AllowedAt, Level, AtColumn;
    InnerKey(b, input, pos);
    if b.keyAllowed {
      RemovedJudged(b, b, input, pos);
    }
    if KeySaved(b).Fault? {
      Reported(input, pos, KeySaved(b).problem);
    }
  }

  lemma SameKeys(b: Book, mark: Mark)
    ensures var m := Unrolled(b.(mark := mark), -1); m.keys == b.keys && m.flowLevel == b.flowLevel
    ensures var m := Unrolled(b, -1); m.keys == b.keys && m.flowLevel == b.flowLevel
  {
  }

  /** Where only a removed key matters. */
  predicate NeverRefused(input: seq<Lexeme>, n: nat)
    requires n < |input|
  {
    var l := input[n];
    && l.Lexeme? && !IsStarter(l) && !(IsBlockScalar(l.token) && Level(input, n) > 0)
    && (Level(input, n) == 0 && !AllowedAt(input, n) ==>
          l.token.typ !in {BlockEntryToken, KeyToken, ValueToken})
  }

  lemma NotRefused(input: seq<Lexeme>, n: nat)
    requires n < |input| && NeverRefused(input, n)
    ensures input[n].Lexeme? && forall p :: !Refused(input, n, p)
    ensures !Has(input[n], ValueToken) ==> GivesUp(input, n)
  {
    hide AtColumn, IsStarter, Level, AllowedAt, KeyFor;
  }

  lemma AloneJudged(b: Book, m: Book, input: seq<Lexeme>, pos: nat, allowed: bool)
    requires TiesAt(b, input, pos) && pos < |input| && NeverRefused(input, pos) && !Has(input[pos], ValueToken)
    requires m.keys == b.keys && m.flowLevel == b.flowLevel && b.flowLevel < |b.keys|
    ensures Judged(TakenAlone(m, input[pos], allowed), input, pos)
    ensures KeyRemoved(m).Fault? ==> Judged(KeyRemoved(m), input, pos)
    ensures KeyRemoved(m).Fine? ==> Sound(input, pos)
  {
    hide KeyLost, TiesAt, NeverRefused, GivesUp, Sound, ProblemAt;
    NotRefused(input, pos);
    RemovedJudged(b, m, input, pos);
    if KeyRemoved(m).Fault? {
      Reported(input, pos, EXPECTED_COLON);
    } else {
      IsSound(input, pos);
    }
  }

  lemma ScannedJudged(b: Book, input: seq<Lexeme>, pos: nat)
    requires TiesAt(b, input, pos) && pos < |input| && b.flowLevel < |b.keys|
    requires (input[pos].Broken? || IsStarter(input[pos])) && !input[pos].Strange?
    requires !(IsBlockScalar(input[pos].token) && Level(input, pos) > 0)
    ensures Judged(ScannedTaken(b, input[pos]), input, pos)
    ensures KeySaved(b).Fault? ==> Judged(KeySaved(b), input, pos)
    ensures KeySaved(b).Fine? && input[pos].Lexeme? ==> Sound(input, pos)
  {
    hide KeyLost, TiesAt, Sound, ProblemAt, AtColumn, KeySaved, Level, AllowedAt;
    assert !Has(input[pos], ValueToken);
    SavedJudged(b, input, pos);
    if KeySaved(b).Fine? {
      if input[pos].Broken? {
        Reported(input, pos, ScannerError(input[pos].problem));
      } else {
        StarterRefused(input, pos);
        IsSound(input, pos);
      }
    }
  }

  lemma StarterKind(l: Lexeme)
    requires IsStarter(l)
    ensures l.Lexeme? && !Has(l, BlockEntryToken) && !Has(l, KeyToken) && !Has(l, ValueToken)
  {
  }

  lemma StarterRefused(input: seq<Lexeme>, n: nat)
    requires n < |input| && IsStarter(input[n]) && !(IsBlockScalar(input[n].token) && Level(input, n) > 0)
    ensures forall p :: Refused(input, n, p) ==> p == ShouldNotHappen
  {
    hide AtColumn, Level, AllowedAt, KeyFor, IsStarter, Has;
    StarterKind(input[n]);
  }

  /** An entry, or an explicit key. */
  lemma EntryJudged(b: Book, input: seq<Lexeme>, pos: nat, typ: TokenType, problem: string, allowed: bool)
    requires TiesAt(b, input, pos) && pos < |input| && input[pos].Lexeme? && b.flowLevel < |b.keys|
    requires (input[pos].token.typ, problem) in
      {(BlockEntryToken, "block sequence entries are not allowed in this context"),
       (KeyToken, "mapping keys are not allowed in this context")}
    ensures Judged(EntryTaken(b, input[pos], typ, problem, allowed), input, pos)
  {
    hide KeyLost, TiesAt, Sound, ProblemAt, Level, AllowedAt, KeyFor, TakenAlone, NeverRefused;
    HereIs(b, input, pos);
    AllowedHere(b, input, pos);
    if b.flowLevel == 0 && !b.keyAllowed {
      EntryRefused(input, pos, problem);
      Reported(input, pos, ScannerError(problem));
    } else {
      EntryAllowed(input, pos);
      var m := Rolled(b, b.mark.column, |b.history|, typ, b.mark);
      AloneJudged(b, m, input, pos, allowed);
    }
  }

  lemma AllowedHere(b: Book, input: seq<Lexeme>, pos: nat)
    requires TiesAt(b, input, pos) && pos < |input|
    ensures b.keyAllowed == AllowedAt(input, pos)
  {
    hide LaidDown, Level, AllowedAt, KeyTies;
  }

  lemma EntryRefused(input: seq<Lexeme>, n: nat, problem: string)
    requires n < |input| && Level(input, n) == 0 && !AllowedAt(input, n) && input[n].Lexeme?
    requires (input[n].token.typ, problem) in
      {(BlockEntryToken, "block sequence entries are not allowed in this context"),
       (KeyToken, "mapping keys are not allowed in this context")}
    ensures Refused(input, n, ScannerError(problem))
  {
    hide AtColumn, Level, AllowedAt, KeyFor;
  }

  lemma EntryAllowed(input: seq<Lexeme>, n: nat)
    requires n < |input| && (Level(input, n) == 0 ==> AllowedAt(input, n)) && input[n].Lexeme?
    requires input[n].token.typ in {BlockEntryToken, KeyToken}
    ensures NeverRefused(input, n) && !Has(input[n], ValueToken)
  {
    hide Level, AllowedAt;
  }

  lemma ValueJudged(b: Book, input: seq<Lexeme>, pos: nat)
    requires TiesAt(b, input, pos) && pos < |input| && Has(input[pos], ValueToken) && Sane(b)
    ensures Judged(ValueTaken(b, input[pos]), input, pos)
  {
    hide KeyLost, TiesAt, Sound, ProblemAt, Level, AllowedAt, KeyFor, KeyInserted, Rolled, GivesUp, Refused;
    InnerKey(b, input, pos);
    ValueRefused(input, pos);
    if !b.keys[b.flowLevel].possible && b.flowLevel == 0 && !b.keyAllowed {
      assert KeyFor(input, pos).None? && !AllowedAt(input, pos) && Level(input, pos) == 0;
      ValueLone(input, pos);
      Reported(input, pos, ScannerError("mapping values are not allowed in this context"));
    } else {
      IsSound(input, pos);
    }
  }

  lemma ValueLone(input: seq<Lexeme>, n: nat)
    requires n < |input| && Has(input[n], ValueToken) && Level(input, n) == 0 && !AllowedAt(input, n)
    requires KeyFor(input, n).None?
    ensures Refused(input, n, ScannerError("mapping values are not allowed in this context"))
  {
    hide AtColumn, Level, AllowedAt, KeyFor;
  }

  lemma ValueRefused(input: seq<Lexeme>, n: nat)
    requires n < |input| && Has(input[n], ValueToken)
    ensures !GivesUp(input, n)
    ensures forall p :: Refused(input, n, p) <==>
      p == ScannerError("mapping values are not allowed in this context")
      && Level(input, n) == 0 && !AllowedAt(input, n) && KeyFor(input, n) == None
  {
    hide AtColumn, Level, AllowedAt, KeyFor, IsStarter, Has;
    ValueKind(input[n]);
  }

  lemma ValueKind(l: Lexeme)
    requires Has(l, ValueToken)
    ensures l.Lexeme? && !Has(l, BlockEntryToken) && !Has(l, KeyToken) && !IsStarter(l) && !IsBlockScalar(l.token)
  {
  }

  lemma StrangeJudged(input: seq<Lexeme>, pos: nat)
    requires pos < |input| && (input[pos].Strange? || (IsBlockScalar(input[pos].token) && Level(input, pos) > 0))
    ensures ProblemAt(input, pos, ScannerError("found character that cannot start any token"))
  {
    hide KeyLost, Level, AllowedAt, KeyFor, AtColumn;
  }

  lemma FaultJudged(input: seq<Lexeme>, pos: nat, p: Problem)
    requires pos < |input| && ProblemAt(input, pos, p)
    ensures Judged(Fault(p), input, pos)
  {
    hide ProblemAt;
  }

  lemma BrokenAlone(b: Book, m: Book, input: seq<Lexeme>, pos: nat, allowed: bool)
    requires TiesAt(b, input, pos) && pos < |input| && input[pos].Broken?
    requires m.keys == b.keys && m.flowLevel == b.flowLevel && b.flowLevel < |b.keys|
    ensures Judged(TakenAlone(m, input[pos], allowed), input, pos)
  {
    hide KeyLost, TiesAt, Sound, ProblemAt, AllowedAt, IsStarter;
    RemovedJudged(b, m, input, pos);
    if KeyRemoved(m).Fault? {
      Reported(input, pos, EXPECTED_COLON);
    } else {
      BrokenRefused(input, pos);
      Reported(input, pos, ScannerError(input[pos].problem));
    }
  }

  lemma BrokenRefused(input: seq<Lexeme>, n: nat)
    requires n < |input| && input[n].Broken?
    ensures Refused(input, n, ScannerError(input[n].problem))
  {
    hide AtColumn, Level, AllowedAt, KeyFor;
  }

  /** Lexemes that only give up a key. */
  lemma PlainNever(input: seq<Lexeme>, n: nat)
    requires n < |input| && input[n].Lexeme? && !IsStarter(input[n])
    requires !(IsBlockScalar(input[n].token) && Level(input, n) > 0)
    requires input[n].token.typ !in {BlockEntryToken, KeyToken, ValueToken}
    ensures NeverRefused(input, n) && !Has(input[n], ValueToken)
  {
    hide Level, AllowedAt, IsStarter;
  }

  lemma Starters(l: Lexeme)
    requires l.Lexeme?
    ensures IsEnd(l) || AtLineStart(l.token.typ) || IsBlockScalar(l.token) ==>
      !IsStarter(l) && l.token.typ !in {BlockEntryToken, KeyToken, ValueToken}
    ensures IsScanned(l.token.typ) && !AtLineStart(l.token.typ) && !IsBlockScalar(l.token) ==> IsStarter(l)
    ensures l.token.typ in {FlowSequenceStartToken, FlowMappingStartToken} ==> IsStarter(l) && !IsBlockScalar(l.token)
    ensures l.token.typ in {FlowSequenceEndToken, FlowMappingEndToken, FlowEntryToken} ==>
      !IsStarter(l) && !IsBlockScalar(l.token)
    ensures IsEnd(l) || AtLineStart(l.token.typ) ==> !IsBlockScalar(l.token)
  {
  }

  lemma EndJudged(b: Book, input: seq<Lexeme>, pos: nat)
    requires TiesAt(b, input, pos) && pos < |input| && IsEnd(input[pos]) && Sane(b)
    ensures Judged(StreamEnded(b), input, pos)
  {
    hide TiesAt, Sound, ProblemAt, Unrolled, NeverRefused, Level, KeyRemoved;
    Starters(input[pos]);
    PlainNever(input, pos);
    SameKeys(b, ForcedLine(b.mark));
    AloneJudged(b, Unrolled(b.(mark := ForcedLine(b.mark)), -1), input, pos, false);
  }

  lemma FlowJudged(b: Book, input: seq<Lexeme>, pos: nat)
    requires TiesAt(b, input, pos) && pos < |input| && input[pos].Lexeme? && Sane(b)
    ensures StartsFlow(input[pos]) ==> Judged(FlowStarted(b, input[pos]), input, pos)
    ensures EndsFlow(input[pos]) ==> Judged(FlowEnded(b, input[pos]), input, pos)
    ensures input[pos].token.typ == FlowEntryToken ==> Judged(TakenAlone(b, input[pos], true), input, pos)
  {
    hide TiesAt, Sound, ProblemAt, NeverRefused, Level, KeyRemoved, KeySaved, IsStarter, IsBlockScalar, TakenAlone;
    var l := input[pos];
    Starters(l);
    if StartsFlow(l) {
      ScannedJudged(b, input, pos);
    } else if EndsFlow(l) || l.token.typ == FlowEntryToken {
      PlainNever(input, pos);
      AloneJudged(b, b, input, pos, true);
    }
  }

  /** What is fetched at a lexeme is judged. */
  lemma FetchedJudged(b: Book, input: seq<Lexeme>, pos: nat)
    requires ValidInput(input) && TiesAt(b, input, pos) && pos < |input| && Sane(b)
    ensures Judged(Fetched(b, input[pos]), input, pos)
  {
    hide TiesAt, Judged, TakenAlone, EntryTaken, StreamEnded, FlowStarted, FlowEnded, ValueTaken, ScannedTaken,
      Unrolled, Level, NeverRefused, ProblemAt, ValidInput, IsStarter, IsEnd, AtLineStart, IsBlockScalar, IsScanned;
    NextIsHere(b, input, pos);
    var l := input[pos];
    if l.Strange? || (IsBlockScalar(l.token) && b.flowLevel > 0) {
      StrangeJudged(input, pos);
      FaultJudged(input, pos, ScannerError("found character that cannot start any token"));
    } else if l.Broken? {
      SameKeys(b, b.mark);
      BrokenNoEnd(l);
      if AtLineStart(l.token.typ) {
        BrokenAlone(b, Unrolled(b, -1), input, pos, false);
      } else if IsBlockScalar(l.token) {
        BrokenAlone(b, b, input, pos, true);
      } else {
        ScannedJudged(b, input, pos);
      }
    } else {
      Starters(l);
      if IsEnd(l) {
        EndJudged(b, input, pos);
      } else if AtLineStart(l.token.typ) {
        SameKeys(b, b.mark);
        PlainNever(input, pos);
        AloneJudged(b, Unrolled(b, -1), input, pos, false);
      } else if IsBlockScalar(l.token) {
        PlainNever(input, pos);
        AloneJudged(b, b, input, pos, true);
      } else if IsScanned(l.token.typ) {
        ScannedJudged(b, input, pos);
      } else {
        IndicatorJudged(b, input, pos);
      }
    }
  }

  lemma BrokenNoEnd(l: Lexeme)
    requires l.Broken?
    ensures !IsEnd(l)
  {
  }

  lemma IndicatorJudged(b: Book, input: seq<Lexeme>, pos: nat)
    requires ValidInput(input) && TiesAt(b, input, pos) && pos < |input| && Sane(b)
    requires var l := input[pos];
      l.Lexeme? && !IsEnd(l) && !AtLineStart(l.token.typ) && !IsBlockScalar(l.token) && !IsScanned(l.token.typ)
    ensures Judged(Fetched(b, input[pos]), input, pos)
  {
    hide TiesAt, Judged, TakenAlone, EntryTaken, StreamEnded, FlowStarted, FlowEnded, ValueTaken, ScannedTaken,
      Unrolled, Level, NeverRefused, ProblemAt, ValidInput;
    match input[pos].token.typ {
      case BlockEntryToken =>
        EntryJudged(b, input, pos, BlockSequenceStartToken, "block sequence entries are not allowed in this context",
          true);
      case KeyToken =>
        EntryJudged(b, input, pos, BlockMappingStartToken, "mapping keys are not allowed in this context",
          b.flowLevel == 0);
      case ValueToken => ValueJudged(b, input, pos);
      case FlowSequenceStartToken => FlowJudged(b, input, pos);
      case FlowMappingStartToken => FlowJudged(b, input, pos);
      case FlowSequenceEndToken => FlowJudged(b, input, pos);
      case FlowMappingEndToken => FlowJudged(b, input, pos);
      case FlowEntryToken => FlowJudged(b, input, pos);
      case _ => NoOther(input, pos);
    }
  }

  // ----- The whole text -------------------------------------------------------------------

  /** A required key is stale at the lexeme at `pos` or at the end. */
  lemma StaleJudged(b: Book, input: seq<Lexeme>, pos: nat, mark: Mark)
    requires pos <= |input| && KeyTies(b.keys, Candidates(input, pos), b.mark, input, pos) && SomeRequired(b.keys, mark)
    requires pos < |input| ==> Follows(mark, StartOf(input[pos]))
    ensures ProblemAt(input, pos, EXPECTED_COLON)
  {
    hide Candidates, MustBeKey, GivesUp, TooFar, LaidDown, AllowedAt;
    var i :| 0 <= i < |b.keys| && b.keys[i].required && IsStale(b.keys[i], mark);
    var c := Candidates(input, pos)[i];
    assert KeyTie(b.keys[i], c, b.mark, input, pos);
    IsFar(b.keys[i], mark);
    if pos < |input| {
      FarIsFarther(b.keys[i].mark, mark, StartOf(input[pos]));
    }
    assert LosesKey(input, pos, c.value);
  }

  lemma IsFar(key: Key, mark: Mark)
    requires IsStale(key, mark)
    ensures TooFar(key.mark, mark) && key.possible
  {
  }

  lemma NextJudged(b: Book, input: seq<Lexeme>, pos: nat)
    requires ValidInput(input) && Ties(b, input, pos) && pos < |input|
    ensures Judged(FetchedNext(b, input[pos]), input, pos)
  {
    hide ValidInput, KeyTies, ReadyFor, Fetched, TiesAt, SomeRequired, Sane, LaidDown, Candidates, Level,
      AllowedAfter, Sound, ProblemAt;
    GetsReady(b, input, pos);
    var r := ReadyFor(b, input[pos]);
    if r.Fine? {
      TiedIsSane(r.book, input, pos);
      FetchedJudged(r.book, input, pos);
    } else {
      SameMark(StartOf(input[pos]));
      StaleJudged(b, input, pos, StartOf(input[pos]));
    }
  }

  /** Nothing is reported up to where the scanner is, or the first problem is. */
  ghost predicate ScanJudged(r: Scan, input: seq<Lexeme>, from: nat) {
    match r
    case At(b, n) => from <= n <= |input| && forall i :: from <= i < n ==> Sound(input, i)
    case Failed(p) => exists n :: FirstProblem(input, from, n, p)
  }

  lemma {:induction false} FetchingJudged(b: Book, input: seq<Lexeme>, pos: nat)
    requires ValidInput(input) && Ties(b, input, pos) && Waits(b) && NoEnd(b.history[..b.parsed])
    ensures ScanJudged(Fetching(b, input, pos), input, pos)
    decreases |input| - pos
  {
    hide ValidInput, Ties, Waits, FetchedNext, Fetching, SomeRequired, NoKeyAt, WithoutStale, ProblemAt, Sound;
    FetchingIs(b, input, pos);
    var stale := b.(keys := WithoutStale(b.keys, b.mark));
    PosIn(b, input, pos);
    if b.parsed < |b.history| && SomeRequired(b.keys, b.mark) {
      TiesKeys(b, input, pos);
      StaleJudged(b, input, pos, b.mark);
      assert FirstProblem(input, pos, pos, EXPECTED_COLON);
    } else if pos < |input| && !(b.parsed < |b.history| && NoKeyAt(stale.keys, b.parsed)) {
      if b.parsed < |b.history| {
        Forgets(b, input, pos);
      }
      var b' := if b.parsed < |b.history| then stale else b;
      NextJudged(b', input, pos);
      NextGoes(b', input, pos);
      var r := FetchedNext(b', input[pos]);
      if r.Fine? {
        NextWaits(b, b', input[pos]);
        FetchingJudged(r.book, input, pos + 1);
        LaterProblem(Fetching(r.book, input, pos + 1), input, pos);
      } else {
        assert FirstProblem(input, pos, pos, r.problem);
      }
    } else {
      NothingFetched(b, input, pos);
    }
  }

  lemma LaterProblem(r: Scan, input: seq<Lexeme>, pos: nat)
    requires pos < |input| && ScanJudged(r, input, pos + 1) && Sound(input, pos)
    ensures ScanJudged(r, input, pos)
  {
    hide Sound, ProblemAt;
    if r.Failed? {
      var n :| FirstProblem(input, pos + 1, n, r.problem);
      assert FirstProblem(input, pos, n, r.problem);
    }
  }

  /** At the end of the text nothing is left that must be a key. */
  lemma EndSound(b: Book, input: seq<Lexeme>)
    requires ValidInput(input) && Ties(b, input, |input|) && !SomeRequired(b.keys, b.mark)
    ensures Sound(input, |input|)
  {
    hide ValidInput, LaidDown, Candidates, Level, AllowedAfter, Matches, IsStarter, AllowedAt, MustBeKey;
    NoKeysLeft(b, input);
    var keys, cs := WithoutStale(b.keys, b.mark), Candidates(input, |input|);
    forall i | 0 <= i < |cs| && cs[i].Some? ensures cs[i].value < |input| ==> !MustBeKey(input, cs[i].value, |input|) {
      assert KeyTie(b.keys[i], cs[i], b.mark, input, |input|);
      assert !keys[i].possible;
    }
    assert forall k: nat :: !LosesKey(input, |input|, k);
  }

  /** What is reported is the first problem of the lexemes ahead, and nothing if there is none. */
  ghost predicate Verdict(problem: Problem, input: seq<Lexeme>, from: nat) {
    if problem == NoProblem then forall i :: from <= i <= |input| ==> Sound(input, i)
    else exists n :: FirstProblem(input, from, n, problem)
  }

  lemma SomeProblem(input: seq<Lexeme>, n: nat, p: Problem)
    requires n <= |input| && ProblemAt(input, n, p)
    ensures p != NoProblem
  {
    hide KeyLost;
  }

  lemma VerdictFrom(problem: Problem, input: seq<Lexeme>, from: nat, n: nat)
    requires from <= n <= |input| && Verdict(problem, input, n) && forall i :: from <= i < n ==> Sound(input, i)
    ensures Verdict(problem, input, from)
  {
    hide Sound, ProblemAt;
    if problem != NoProblem {
      var m :| FirstProblem(input, n, m, problem);
      assert FirstProblem(input, from, m, problem);
    }
  }

  lemma EndReached(b: Book, input: seq<Lexeme>, n: nat)
    requires ValidInput(input) && Ties(b, input, n) && b.parsed < |b.history|
    requires b.history[b.parsed].typ == StreamEndToken
    ensures n == |input|
  {
    hide ValidInput, KeyTies, LaidDown, AllowedAfter, Level, MarkAfter, Candidates;
    if n < |input| {
      EndIsEnd(input, n, n);
      assert false;
    }
  }

  /** Where fetching ends, no required key is stale. */
  lemma {:induction false} NoneStale(b: Book, input: seq<Lexeme>, pos: nat)
    ensures var r := Fetching(b, input, pos);
      r.At? ==> !SomeRequired(r.book.keys, r.book.mark)
    decreases |input| - pos
  {
    hide FetchedNext, NoKeyAt;
    if !(b.parsed < |b.history| && SomeRequired(b.keys, b.mark)) {
      var stale := b.(keys := WithoutStale(b.keys, b.mark));
      if pos < |input| && !(b.parsed < |b.history| && NoKeyAt(stale.keys, b.parsed)) {
        var b' := if b.parsed < |b.history| then stale else b;
        var r := FetchedNext(b', input[pos]);
        if r.Fine? {
          NoneStale(r.book, input, pos + 1);
        }
      }
    }
  }

  lemma {:induction false} ScanningJudged(b: Book, input: seq<Lexeme>, pos: nat)
    requires ValidInput(input) && Ties(b, input, pos) && Waits(b) && NoEnd(b.history[..b.parsed])
    ensures Verdict(Scanning(b, input, pos).1, input, pos)
    decreases |input| - pos, |b.history| - b.parsed
  {
    hide ValidInput, Ties, Waits, Steady, Fetching, Scanning, ColonReason, NoKeyAt, LaidDown, Sound, ProblemAt;
    FetchingGoes(b, input, pos);
    FetchingSteady(b, input, pos);
    FetchingJudged(b, input, pos);
    ScanningIs(b, input, pos);
    WaitsHere(b);
    match Fetching(b, input, pos) {
      case Failed(p) =>
        var n :| FirstProblem(input, pos, n, p);
        SomeProblem(input, n, p);
      case At(b', n) =>
        PosIn(b', input, n);
        StillMore(b, b', input, n);
        var t := b'.history[b'.parsed];
        if t.typ != StreamEndToken {
          var next := b'.(parsed := b'.parsed + 1);
          DeliveredTies(b', input, n);
          DeliveredWaits(b, b');
          ScanningJudged(next, input, n);
          VerdictFrom(Scanning(next, input, n).1, input, pos, n);
        } else {
          EndReached(b', input, n);
          NoneStale(b, input, pos);
          EndSound(b', input);
        }
    }
  }

  /** The scanner reports exactly the first problem of the text, and nothing if there is none. */
  lemma ScansExactly(input: seq<Lexeme>)
    requires ValidInput(input)
    ensures var problem := Scanning(STARTED, input, 0).1;
      && (problem == NoProblem <==> forall n :: 0 <= n <= |input| ==> Sound(input, n))
      && (problem != NoProblem ==> exists n :: FirstProblem(input, 0, n, problem))
  {
    hide ValidInput, Scanning, ProblemAt;
    StartedTies(input);
    ScanningJudged(STARTED, input, 0);
    var problem := Scanning(STARTED, input, 0).1;
    if problem != NoProblem {
      var n :| FirstProblem(input, 0, n, problem);
      assert !Sound(input, n);
    }
  }
}
