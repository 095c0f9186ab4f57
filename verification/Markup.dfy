/** Where the tokens of an HTML text end and what their data is, in characters. */
module HtmlMarkup {
  import opened HtmlLex
  import opened HtmlTags

  // ----- Text and bogus comments ----------------------------------------------------------

  /** Does markup start at `k`? */
  predicate Starts(s: string, k: nat) {
    k + 1 < |s| && s[k] == '<' && (Letter(s[k + 1]) || s[k + 1] in {'/', '!', '?'})
  }

  /** Is `x` the first place from `p` on where markup starts, or the end? */
  ghost predicate FirstStart(s: string, p: nat, x: nat) {
    && p <= x <= |s| && (x < |s| ==> Starts(s, x))
    && forall k: nat :: p <= k < x ==> !Starts(s, k)
  }

  lemma {:induction false} TextIs(s: string, p: nat)
    requires p <= |s|
    ensures FirstStart(s, p, TextEnd(s, p))
    decreases |s| - p
  {
    if p < |s| {
      if p + 1 < |s| {
        LettersAre(s[p + 1]);
      }
      if !Starts(s, p) {
        TextIs(s, p + 1);
      }
    }
  }

  /** Is `x` the first ">" from `p` on, or the end? */
  ghost predicate FirstAngle(s: string, p: nat, x: nat) {
    && p <= x <= |s| && (x < |s| ==> s[x] == '>')
    && forall k: nat :: p <= k < x ==> s[k] != '>'
  }

  lemma AngleIs(s: string, p: nat)
    requires p <= |s|
    ensures FirstAngle(s, p, Find(s, p, Closes('>')))
  {
    hide Find;
    forall k: nat | p <= k < Find(s, p, Closes('>')) ensures s[k] != '>' {
      FindsFirst(s, p, Closes('>'), k);
    }
  }

  // ----- Comments -------------------------------------------------------------------------

  /** Are there two dashes before `k` that count? The data of the comment starts at `d`, behind
    * the dashes of "<!--", which count too. The character after "--!" is lost. */
  predicate Dashes(s: string, d: nat, k: nat) {
    && 2 <= d <= k <= |s| && s[k - 1] == '-' && s[k - 2] == '-'
    && !(k - 3 >= d && s[k - 3] == '!' && Dashes(s, d, k - 3))
  }

  /** Is there a dash before `k` that counts? */
  predicate Dash(s: string, d: nat, k: nat) {
    && 2 <= d <= k <= |s| && s[k - 1] == '-'
    && !(k - 2 >= d && s[k - 2] == '!' && Dashes(s, d, k - 2))
  }

  /** Does the ">" at `j` end the comment? */
  predicate Closing(s: string, d: nat, j: nat) {
    && d <= j < |s| && s[j] == '>'
    && (Dashes(s, d, j) || (j > d && s[j - 1] == '!' && Dashes(s, d, j - 1)))
  }

  /** Where the data of a comment ends; at the end of the text up to two dashes are dropped. */
  function CommentData(s: string, d: nat, j: nat): int
    requires 2 <= d <= j <= |s|
  {
    if j < |s| then if s[j - 1] == '!' then j - 3 else j - 2
    else if Dashes(s, d, j) then j - 2
    else if Dash(s, d, j) then j - 1
    else j
  }

  ghost predicate FirstClosing(s: string, d: nat, p: nat, j: nat) {
    && p <= j <= |s| && (j < |s| ==> Closing(s, d, j))
    && forall k: nat :: p <= k < j ==> !Closing(s, d, k)
  }

  /** Is the character at `p` behind a "--!", and so lost? */
  predicate Lost(s: string, d: nat, p: nat) {
    d < p <= |s| && s[p - 1] == '!' && Dashes(s, d, p - 1)
  }

  lemma ClosesHere(s: string, d: nat, p: nat)
    requires 2 <= d <= p <= |s|
    ensures FirstClosing(s, d, |s|, |s|)
    ensures Closing(s, d, p) <==> p < |s| && s[p] == '>' && (Dashes(s, d, p) || Lost(s, d, p))
    ensures Closing(s, d, p) ==> FirstClosing(s, d, p, p)
  {
    hide Dashes;
  }

  lemma ClosesLater(s: string, d: nat, p: nat, j: nat)
    requires p < |s| && !Closing(s, d, p) && FirstClosing(s, d, p + 1, j)
    ensures FirstClosing(s, d, p, j)
  {
    hide Closing;
  }

  /** A comment ends at the first ">" that closes it. */
  lemma {:induction false} CommentIs(s: string, d: nat, p: nat, dashes: nat) returns (j: nat)
    requires 2 <= d <= p <= |s| && !Lost(s, d, p)
    requires (dashes >= 2) == Dashes(s, d, p) && (dashes >= 1) == Dash(s, d, p)
    ensures FirstClosing(s, d, p, j) && d <= j <= |s|
    ensures Comment(s, p, dashes) ==
      (CommentData(s, d, j), if j < |s| then Stop(j + 1, false) else Stop(j, true))
    decreases |s| - p
  {
    hide Comment, CommentData, Closing, FirstClosing, Dashes, Dash, Lost;
    CommentOne(s, p, dashes);
    DashesOn(s, d, p);
    DashesEnd(s, d, p);
    ClosesHere(s, d, p);
    if p == |s| || (s[p] == '>' && dashes >= 2) {
      j := p;
      DataEnds(s, d, j);
    } else if s[p] == '!' && dashes >= 2 {
      DashesOn(s, d, p + 1);
      ClosesHere(s, d, p + 1);
      if p + 1 == |s| || s[p + 1] == '>' {
        j := p + 1;
        DataEnds(s, d, j);
      } else {
        j := CommentIs(s, d, p + 2, 0);
        ClosesLater(s, d, p + 1, j);
      }
      ClosesLater(s, d, p, j);
    } else {
      j := CommentIs(s, d, p + 1, if s[p] == '-' then dashes + 1 else 0);
      ClosesLater(s, d, p, j);
    }
  }

  /** What the dashes before the next position are. */
  lemma DashesOn(s: string, d: nat, p: nat)
    requires 2 <= d <= p <= |s|
    ensures p < |s| ==>
      && Dash(s, d, p + 1) == (s[p] == '-' && !Lost(s, d, p))
      && Dashes(s, d, p + 1) == (s[p] == '-' && Dash(s, d, p))
      && Lost(s, d, p + 1) == (s[p] == '!' && Dashes(s, d, p))
  {
  }

  lemma DashesEnd(s: string, d: nat, p: nat)
    requires 2 <= d <= p <= |s|
    ensures Dashes(s, d, p) ==> Dash(s, d, p) && s[p - 1] == '-'
    ensures Lost(s, d, p) ==> s[p - 1] == '!'
  {
  }

  lemma DataEnds(s: string, d: nat, j: nat)
    requires 2 <= d <= j <= |s|
    ensures CommentData(s, d, j) ==
      if j < |s| then (if s[j - 1] == '!' then j - 3 else j - 2)
      else j - (if Dashes(s, d, j) then 2 else if Dash(s, d, j) then 1 else 0)
  {
    hide Dashes, Dash;
  }

  // ----- Declarations ---------------------------------------------------------------------

  /** Does `word` start at `p`, as far as the text goes? With `fold`, letters that are 32 more do. */
  ghost predicate Spelled(s: string, p: nat, word: string, fold: bool) {
    forall k: nat :: k < |word| && p + k < |s| ==>
      s[p + k] == word[k] || (fold && s[p + k] as int == word[k] as int + 32)
  }

  predicate Ascii(word: string) {
    forall k :: 0 <= k < |word| ==> word[k] as int < 128
  }

  lemma {:induction false} WordIs(s: string, p: nat, word: string, i: nat, fold: bool)
    requires p + i <= |s| && i <= |word| && Ascii(word)
    requires forall k: nat :: k < i ==> s[p + k] == word[k] || (fold && s[p + k] as int == word[k] as int + 32)
    ensures var n := MatchWord(s, p, word, i, fold);
      && (n == |word| <==> Spelled(s, p, word, fold) && p + |word| <= |s|)
      && (p + n == |s| && n < |word| <==> Spelled(s, p, word, fold) && p + |word| > |s|)
    decreases |word| - i
  {
    if i < |word| && p + i < |s| {
      assert Up(word[i]) as int == word[i] as int + 32;
      if s[p + i] == word[i] || (fold && s[p + i] == Up(word[i])) {
        WordIs(s, p, word, i + 1, fold);
      } else {
        assert !Spelled(s, p, word, fold);
      }
    }
  }

  /** Is the ">" at `j` the end of a CDATA section whose data starts at `d`? */
  predicate Brackets(s: string, d: nat, j: nat) {
    d + 2 <= j < |s| && s[j] == '>' && s[j - 1] == ']' && s[j - 2] == ']'
  }

  ghost predicate FirstBrackets(s: string, d: nat, p: nat, j: nat) {
    && p <= j <= |s| && (j < |s| ==> Brackets(s, d, j))
    && forall k: nat :: p <= k < j ==> !Brackets(s, d, k)
  }

  lemma {:induction false} CdataIs(s: string, d: nat, p: nat, brackets: nat) returns (j: nat)
    requires d <= p <= |s| && brackets <= p - d
    requires forall k :: p - brackets <= k < p ==> s[k] == ']'
    requires p - brackets > d ==> s[p - brackets - 1] != ']'
    ensures FirstBrackets(s, d, p, j)
    ensures CdataEnd(s, p, brackets) ==
      if j < |s| then (j - 2, Stop(j + 1, false)) else (j, Stop(j, true))
    decreases |s| - p
  {
    if p == |s| {
      j := p;
    } else if s[p] == ']' {
      j := CdataIs(s, d, p + 1, brackets + 1);
    } else if s[p] == '>' && brackets >= 2 {
      j := p;
    } else {
      j := CdataIs(s, d, p + 1, 0);
    }
  }

  // ----- Raw text -------------------------------------------------------------------------

  predicate Small(tag: string) {
    forall i :: 0 <= i < |tag| ==> 97 <= tag[i] as int <= 122
  }

  /** Is `word`, in small letters, the same as `tag` up to case? */
  predicate SameName(word: string, tag: string) {
    |word| == |tag| && forall i :: 0 <= i < |tag| ==> word[i] == tag[i] || word[i] as int + 32 == tag[i] as int
  }

  /** Is there, at `k`, `tag` in small or capital letters and a character that ends a name? */
  predicate NameAt(s: string, k: nat, tag: string) {
    k + |tag| < |s| && SameName(s[k..k + |tag|], tag) && s[k + |tag|] in SPACES + {'/', '>'}
  }

  /** Is there "</", `tag` and a character that ends a name? */
  predicate Ending(s: string, k: nat, tag: string) {
    k + 2 <= |s| && s[k] == '<' && s[k + 1] == '/' && NameAt(s, k + 2, tag)
  }

  /** Is there an odd number of "<" between `p` and `k`, next to `k`? */
  predicate Odd(s: string, p: nat, k: nat) {
    p < k <= |s| && s[k - 1] == '<' && !Odd(s, p, k - 1)
  }

  /** Does the raw text of `tag` that starts at `p` end at `k`? A "<" takes the character behind
    * it along unless that is "/". */
  predicate RawEnds(s: string, p: nat, tag: string, k: nat) {
    Ending(s, k, tag) && !Odd(s, p, k)
  }

  ghost predicate FirstRawEnd(s: string, p: nat, tag: string, q: nat, k: nat) {
    && q <= k <= |s| && (k < |s| ==> RawEnds(s, p, tag, k))
    && forall i: nat :: q <= i < k ==> !RawEnds(s, p, tag, i)
  }

  /** How far `tag` matches at `p`, and that it all does exactly if it is there. */
  lemma {:induction false} MatchIs(s: string, p: nat, tag: string, i: nat)
    requires p + i <= |s| && i <= |tag| && Small(tag)
    requires forall k: nat :: k < i ==> s[p + k] == tag[k] || s[p + k] as int + 32 == tag[k] as int
    ensures var n := MatchTag(s, p, tag, i);
      && (forall k: nat :: k < n ==> s[p + k] == tag[k] || s[p + k] as int + 32 == tag[k] as int)
      && (p + n < |s| && n < |tag| ==> s[p + n] != tag[n] && s[p + n] as int + 32 != tag[n] as int)
    decreases |tag| - i
  {
    if i < |tag| && p + i < |s| {
      assert Down(tag[i]) as int == tag[i] as int - 32;
      if s[p + i] == tag[i] || s[p + i] == Down(tag[i]) {
        MatchIs(s, p, tag, i + 1);
      }
    }
  }

  /** A name matches exactly if it is there, and nothing passed over is a "<". */
  lemma WholeMatch(s: string, p: nat, tag: string)
    requires p <= |s| && Small(tag)
    ensures var n := MatchTag(s, p, tag, 0);
      && (NameAt(s, p, tag) <==> n == |tag| && p + n < |s| && Ends(EndsName, s[p + n]))
      && forall k :: p <= k < p + n ==> s[k] != '<' && Letter(s[k])
  {
    hide MatchTag, Ends, SPACES;
    var n := MatchTag(s, p, tag, 0);
    MatchIs(s, p, tag, 0);
    if p + n < |s| {
      EndersAre(s[p + n]);
    }
    if p + n < |s| && n < |tag| && p + |tag| < |s| {
      assert s[p..p + |tag|][n] == s[p + n];
    }
    forall k | p <= k < p + n ensures s[k] != '<' && Letter(s[k]) {
      var i := k - p;
      assert s[p + i] == tag[i] || s[p + i] as int + 32 == tag[i] as int;
    }
  }

  lemma EndTagIs(s: string, p: nat, tag: string)
    requires 2 <= p <= |s| && Small(tag)
    ensures var r := RawEndTag(s, p, tag);
      && r.0 == NameAt(s, p, tag)
      && (!r.0 ==> (r.1.eof <==> r.1.pos == |s|) && forall k :: p <= k < r.1.pos ==> s[k] != '<' && Letter(s[k]))
  {
    hide MatchTag, Ends, NameAt, Letter;
    WholeMatch(s, p, tag);
  }

  /** Raw text ends at the first end tag of its element that has no odd "<" before it. */
  lemma {:induction false} RawTextIs(s: string, p: nat, tag: string, q: nat) returns (k: nat)
    requires p <= q <= |s| && Small(tag) && !Odd(s, p, q)
    ensures FirstRawEnd(s, p, tag, q, k)
    ensures RawText(s, q, tag) == if k < |s| then Stop(k, false) else Stop(k, true)
    decreases |s| - q
  {
    hide Ending, RawEndTag, NameAt;
    if q == |s| {
      k := q;
    } else if s[q] != '<' {
      NoEnding(s, q, tag);
      k := RawTextIs(s, p, tag, q + 1);
    } else if q + 1 == |s| {
      NoEnding(s, q, tag);
      k := |s|;
    } else if s[q + 1] != '/' {
      NoEnding(s, q, tag);
      k := RawTextIs(s, p, tag, q + 2);
    } else {
      k := RawTagIs(s, p, tag, q);
    }
  }

  lemma NoEnding(s: string, q: nat, tag: string)
    requires q + 1 >= |s| || s[q] != '<' || s[q + 1] != '/'
    ensures !Ending(s, q, tag)
  {
  }

  lemma {:induction false} RawTagIs(s: string, p: nat, tag: string, q: nat) returns (k: nat)
    requires p <= q && q + 1 < |s| && s[q] == '<' && s[q + 1] == '/' && Small(tag) && !Odd(s, p, q)
    ensures FirstRawEnd(s, p, tag, q, k)
    ensures RawText(s, q, tag) == if k < |s| then Stop(k, false) else Stop(k, true)
    decreases |s| - q, 0
  {
    hide RawEndTag, NameAt;
    EndTagIs(s, q + 2, tag);
    var r := RawEndTag(s, q + 2, tag);
    if r.0 {
      k := q;
    } else {
      forall i: nat | q <= i < r.1.pos ensures !Ending(s, i, tag) {
      }
      if r.1.eof {
        k := |s|;
      } else {
        k := RawTextIs(s, p, tag, r.1.pos);
      }
    }
  }

  /** Raw text goes up to the next end tag of its element if and only if the number of "<" next to
    * that is even. */
  lemma NextEndTag(s: string, p: nat, tag: string, e: nat)
    requires p <= e <= |s| && Small(tag) && Ending(s, e, tag) && forall i: nat :: p <= i < e ==> !Ending(s, i, tag)
    ensures RawText(s, p, tag) == Stop(e, false) <==> !Odd(s, p, e)
  {
    hide NameAt, RawText;
    var k := RawTextIs(s, p, tag, p);
    assert RawEnds(s, p, tag, e) <==> !Odd(s, p, e);
    assert forall i: nat :: p <= i < e ==> !RawEnds(s, p, tag, i);
  }

  /** An end tag that is passed over. */
  lemma EndTagPassed()
    ensures var s := "<</title>";
      Ending(s, 1, "title") && RawText(s, 0, "title") == Stop(9, true)
  {
    var s := "<</title>";
    assert s[3..8] == "title";
    assert RawText(s, 2, "title") == RawText(s, 9, "title");
  }

  // ----- Scripts --------------------------------------------------------------------------

  /** What a comment in a script hides: nothing, script tags, or also end tags. */
  datatype Hiding = Plain | Hidden | Twice

  predicate Arrow(s: string, k: nat) {
    2 <= k < |s| && s[k] == '>' && s[k - 1] == '-' && s[k - 2] == '-'
  }

  /** Where a script ends, by what it spells: "<!--" hides script tags up to "-->", a script tag
    * in what is hidden hides the next end tag as well. A "<" in hidden text that starts neither a
    * name nor an end tag ends the hiding. */
  function ScriptEnd(s: string, k: nat, h: Hiding): nat
    requires k <= |s|
    decreases |s| - k
  {
    if k == |s| then k
    else if h != Plain && Arrow(s, k) then ScriptEnd(s, k + 1, Plain)
    else if s[k] != '<' || k + 1 == |s| then ScriptEnd(s, k + 1, h)
    else if Ending(s, k, "script") then
      if h == Twice then ScriptEnd(s, k + 9, Hidden) else k
    else
      match h
      case Plain => if At(s, k, "<!--") then ScriptEnd(s, k + 4, Hidden) else ScriptEnd(s, k + 1, Plain)
      case Hidden =>
        if NameAt(s, k + 1, "script") then ScriptEnd(s, k + 8, Twice)
        else ScriptEnd(s, k + 1, if Letter(s[k + 1]) || s[k + 1] == '/' then Hidden else Plain)
      case Twice => ScriptEnd(s, k + 1, Twice)
  }

  lemma ScriptEndIs(s: string, k: nat, h: Hiding)
    requires k < |s|
    ensures ScriptEnd(s, k, h) ==
      if h != Plain && Arrow(s, k) then ScriptEnd(s, k + 1, Plain)
      else if s[k] != '<' || k + 1 == |s| then ScriptEnd(s, k + 1, h)
      else if Ending(s, k, "script") then
        if h == Twice then ScriptEnd(s, k + 9, Hidden) else k
      else
        match h
        case Plain => if At(s, k, "<!--") then ScriptEnd(s, k + 4, Hidden) else ScriptEnd(s, k + 1, Plain)
        case Hidden =>
          if NameAt(s, k + 1, "script") then ScriptEnd(s, k + 8, Twice)
          else ScriptEnd(s, k + 1, if Letter(s[k + 1]) || s[k + 1] == '/' then Hidden else Plain)
        case Twice => ScriptEnd(s, k + 1, Twice)
  {
    hide Ending, NameAt, At, Arrow, Letter;
  }

  /** Characters that are neither "<" nor ">" change nothing. */
  lemma {:induction false} Ordinary(s: string, k: nat, n: nat, h: Hiding)
    requires k <= n <= |s| && forall i :: k <= i < n ==> s[i] != '<' && s[i] != '>'
    ensures ScriptEnd(s, k, h) == ScriptEnd(s, n, h)
    decreases n - k
  {
    hide ScriptEnd, Ending, NameAt, At;
    if k < n {
      ScriptEndIs(s, k, h);
      Ordinary(s, k + 1, n, h);
    }
  }

  /** How much hides in a state of the tokenizer, and how many characters before the position
    * have not been decided about. */
  function HidingOf(q: ScriptState): Hiding {
    match q
    case Data => Plain
    case LessThanSign => Plain
    case EndTagOpen => Plain
    case EscapeStart => Plain
    case EscapeStartDash => Plain
    case DoubleEscaped => Twice
    case DoubleEscapedDash => Twice
    case DoubleEscapedDashDash => Twice
    case DoubleEscapedLessThanSign => Twice
    case DoubleEscapeEnd => Twice
    case _ => Hidden
  }

  function Undecided(q: ScriptState): string {
    match q
    case LessThanSign => "<"
    case EndTagOpen => "</"
    case EscapeStart => "<!"
    case EscapeStartDash => "<!-"
    case EscapedLessThanSign => "<"
    case EscapedEndTagOpen => "</"
    case DoubleEscapeStart => "<"
    case DoubleEscapedLessThanSign => "<"
    case DoubleEscapeEnd => "</"
    case _ => ""
  }

  /** Is the text before `p` what the state stands for? */
  predicate Stands(s: string, p: nat, q: ScriptState) {
    && |Undecided(q)| <= p <= |s| && At(s, p - |Undecided(q)|, Undecided(q))
    && match q
       case Data => true
       case Escaped => 0 < p && s[p - 1] != '-'
       case DoubleEscaped => 0 < p && s[p - 1] != '-'
       case EscapedDash => 1 < p && s[p - 1] == '-' && s[p - 2] != '-'
       case DoubleEscapedDash => 1 < p && s[p - 1] == '-' && s[p - 2] != '-'
       case EscapedDashDash => 1 < p && s[p - 1] == '-' && s[p - 2] == '-'
       case DoubleEscapedDashDash => 1 < p && s[p - 1] == '-' && s[p - 2] == '-'
       case DoubleEscapeStart => p < |s| && Letter(s[p])
       case _ => true
  }

  function EndOf(s: string, p: nat, q: ScriptState): nat
    requires |Undecided(q)| <= p <= |s|
  {
    ScriptEnd(s, p - |Undecided(q)|, HidingOf(q))
  }

  /** The text of `u` before `p`, character by character. */
  predicate Before(s: string, p: nat, u: string) {
    && |u| <= 3 && |u| <= p <= |s|
    && (|u| >= 1 ==> s[p - |u|] == u[0])
    && (|u| >= 2 ==> s[p - |u| + 1] == u[1])
    && (|u| == 3 ==> s[p - 1] == u[2])
  }

  lemma BeforeIs(s: string, p: nat, u: string)
    requires |u| <= 3
    ensures |u| <= p && At(s, p - |u|, u) <==> Before(s, p, u)
  {
    hide At, Before;
    if |u| <= p <= |s| {
      var q := p - |u|;
      if At(s, q, u) {
        AtEach(s, q, u);
        BeforeEach(s, p, u);
      }
      if Before(s, p, u) {
        BeforeEach(s, p, u);
        AtAll(s, q, u);
      }
    } else {
      NotBefore(s, p, u);
    }
  }

  lemma BeforeEach(s: string, p: nat, u: string)
    requires |u| <= 3 && |u| <= p <= |s|
    ensures Before(s, p, u) <==> forall k :: p - |u| <= k < p ==> s[k] == u[k - (p - |u|)]
  {
  }

  lemma NotBefore(s: string, p: nat, u: string)
    requires |u| > p || p > |s|
    ensures !Before(s, p, u) && !(|u| <= p && At(s, p - |u|, u))
  {
  }

  lemma AtAll(s: string, p: nat, t: string)
    requires p + |t| <= |s| && forall k :: p <= k < p + |t| ==> s[k] == t[k - p]
    ensures At(s, p, t)
  {
  }

  lemma AtFour(s: string, k: nat)
    ensures At(s, k, "<!--") <==>
      k + 4 <= |s| && s[k] == '<' && s[k + 1] == '!' && s[k + 2] == '-' && s[k + 3] == '-'
  {
    if k + 4 <= |s| && s[k] == '<' && s[k + 1] == '!' && s[k + 2] == '-' && s[k + 3] == '-' {
      assert s[k..k + 4] == "<!--";
    }
    if At(s, k, "<!--") {
      AtEach(s, k, "<!--");
    }
  }

  lemma StepBefore(s: string, p: nat, q: ScriptState)
    requires p < |s| && Before(s, p, Undecided(q)) && ReadsByte(q)
    ensures var (q', consumed) := ScriptStep(q, s[p]);
      Before(s, if consumed then p + 1 else p, Undecided(q'))
  {
  }

  /** One character in a state that reads one goes to a state that stands for the text. */
  lemma StepStands(s: string, p: nat, q: ScriptState)
    requires Stands(s, p, q) && ReadsByte(q) && p < |s|
    ensures var (q', consumed) := ScriptStep(q, s[p]);
      Stands(s, if consumed then p + 1 else p, q')
  {
    hide At;
    LettersAre(s[p]);
    var (q', consumed) := ScriptStep(q, s[p]);
    BeforeIs(s, p, Undecided(q));
    StepBefore(s, p, q);
    BeforeIs(s, if consumed then p + 1 else p, Undecided(q'));
  }

  /** A "<" that begins nothing. */
  lemma NotBegun(s: string, k: nat, h: Hiding)
    requires k + 1 < |s| && s[k] == '<'
    ensures s[k + 1] != '/' && (h == Plain ==> s[k + 1] != '!') && (h == Hidden ==> !Letter(s[k + 1])) ==>
      ScriptEnd(s, k, h) == ScriptEnd(s, k + 1, if h == Hidden then Plain else h)
  {
    hide ScriptEnd, Ending, NameAt, At;
    ScriptEndIs(s, k, h);
    AtFour(s, k);
    if s[k + 1] != '/' {
      NoEnding(s, k, "script");
    }
    if !Letter(s[k + 1]) {
      NoName(s, k + 1);
    }
  }

  lemma NoTag(s: string, p: nat, h: Hiding)
    ensures p < |s| && s[p] != '<' ==>
      ScriptEnd(s, p, h) == ScriptEnd(s, p + 1, if h != Plain && Arrow(s, p) then Plain else h)
  {
    hide Ending, NameAt, At, Arrow;
  }

  lemma NoName(s: string, k: nat)
    requires k < |s| && !Letter(s[k])
    ensures !NameAt(s, k, "script")
  {
    assert k + 6 < |s| ==> s[k..k + 6][0] == s[k];
  }

  /** ... and the script ends where it did. */
  lemma StepSame(s: string, p: nat, q: ScriptState)
    requires Stands(s, p, q) && ReadsByte(q) && p < |s|
    ensures var (q', consumed) := ScriptStep(q, s[p]);
      Stands(s, if consumed then p + 1 else p, q') && EndOf(s, if consumed then p + 1 else p, q') == EndOf(s, p, q)
  {
    hide ScriptEnd, Ending, NameAt, At, Letter;
    StepStands(s, p, q);
    BeforeIs(s, p, Undecided(q));
    LettersAre(s[p]);
    var k := p - |Undecided(q)|;
    var h := HidingOf(q);
    AtFour(s, k);
    match q
    case EscapeStart =>
      ScriptEndIs(s, k, h);
      NoEnding(s, k, "script");
      ScriptEndIs(s, k + 1, h);
    case EscapeStartDash =>
      ScriptEndIs(s, k, h);
      NoEnding(s, k, "script");
      Ordinary(s, k + 1, p, h);
    case LessThanSign => NotBegun(s, k, h);
    case EscapedLessThanSign => NotBegun(s, k, h);
    case DoubleEscapedLessThanSign => NotBegun(s, k, h);
    case _ => NoTag(s, p, h);
  }

  lemma AllRead(s: string, q: ScriptState)
    requires Stands(s, |s|, q) && ReadsByte(q)
    ensures EndOf(s, |s|, q) == |s|
  {
    hide ScriptEnd, Ending, NameAt, At, Letter;
    BeforeIs(s, |s|, Undecided(q));
    var h := HidingOf(q);
    ScriptEndAtEnd(s, h);
    var k := |s| - |Undecided(q)|;
    if k < |s| {
      NoEnding(s, k, "script");
      AtFour(s, k);
      ScriptEndIs(s, k, h);
      Ordinary(s, k + 1, |s|, h);
    }
  }

  lemma ScriptEndAtEnd(s: string, h: Hiding)
    ensures ScriptEnd(s, |s|, h) == |s|
  {
  }

  /** The tokenizer ends a script where the text does. */
  lemma {:induction false} ScriptIs(s: string, p: nat, q: ScriptState)
    requires Stands(s, p, q) && Behind(q) <= p
    ensures var k := EndOf(s, p, q);
      k <= |s| && Script(s, p, q) == if k < |s| then Stop(k, false) else Stop(k, true)
    decreases |s| - p, Rank(q)
  {
    hide Script, ScriptEnd, ScriptStep, At, EndOf;
    if ReadsByte(q) {
      ScriptByte(s, p, q);
      if p < |s| {
        StepSame(s, p, q);
        var (q', consumed) := ScriptStep(q, s[p]);
        ScriptIs(s, if consumed then p + 1 else p, q');
      } else {
        AllRead(s, q);
      }
    } else if q == DoubleEscapeStart {
      StartsTwice(s, p);
    } else {
      EndsScript(s, p, q);
    }
  }

  lemma {:induction false} StartsTwice(s: string, p: nat)
    requires Stands(s, p, DoubleEscapeStart)
    ensures var k := EndOf(s, p, DoubleEscapeStart);
      k <= |s| && Script(s, p, DoubleEscapeStart) == if k < |s| then Stop(k, false) else Stop(k, true)
    decreases |s| - p, 1, 0
  {
    hide Script, ScriptEnd, Ending, NameAt, MatchTag, Ends, At;
    BeforeIs(s, p, "<");
    ScriptWord(s, p);
    WholeMatch(s, p, SCRIPT);
    var n := MatchTag(s, p, SCRIPT, 0);
    ScriptEndIs(s, p - 1, Hidden);
    NoEnding(s, p - 1, "script");
    if p + n < |s| && n == |SCRIPT| && Ends(EndsName, s[p + n]) {
      BeforeIs(s, p + n + 1, "");
      NoDash(s[p + n]);
      ScriptIs(s, p + n + 1, DoubleEscaped);
    } else {
      Ordinary(s, p, p + n, Hidden);
      ScriptEndAtEnd(s, Hidden);
      if p + n < |s| {
        BeforeIs(s, p + n, "");
        ScriptIs(s, p + n, Escaped);
      }
    }
  }

  lemma NoDash(c: char)
    requires Ends(EndsName, c)
    ensures c != '-'
  {
  }

  lemma ScriptTag(s: string, p: nat, q: ScriptState)
    requires Behind(q) == 2 <= p <= |s|
    ensures var r := RawEndTag(s, p, SCRIPT);
      Script(s, p, q) ==
        if r.1.eof then r.1
        else if q == DoubleEscapeEnd then
          if r.0 then Script(s, p + |SCRIPT| + 1, Escaped) else Script(s, r.1.pos, DoubleEscaped)
        else if r.0 then r.1
        else Script(s, r.1.pos, if q == EndTagOpen then Data else Escaped)
  {
    hide RawEndTag;
  }

  lemma {:induction false} EndsScript(s: string, p: nat, q: ScriptState)
    requires Stands(s, p, q) && Behind(q) == 2
    ensures var k := EndOf(s, p, q);
      k <= |s| && Script(s, p, q) == if k < |s| then Stop(k, false) else Stop(k, true)
    decreases |s| - p, 1, 0
  {
    hide Script, ScriptEnd, NameAt, RawEndTag, At;
    BeforeIs(s, p, "</");
    ScriptTag(s, p, q);
    EndTagIs(s, p, SCRIPT);
    var r := RawEndTag(s, p, SCRIPT);
    var h := HidingOf(q);
    ScriptEndIs(s, p - 2, h);
    AtFour(s, p - 2);
    NoName(s, p - 1);
    if r.0 {
      if q == DoubleEscapeEnd {
        BehindName(s, p);
        BeforeIs(s, p + 7, "");
        ScriptIs(s, p + 7, Escaped);
      }
    } else {
      Ordinary(s, p - 1, r.1.pos, h);
      ScriptEndAtEnd(s, h);
      if !r.1.eof {
        BeforeIs(s, r.1.pos, "");
        ScriptIs(s, r.1.pos, if q == DoubleEscapeEnd then DoubleEscaped else if q == EndTagOpen then Data else Escaped);
      }
    }
  }

  lemma BehindName(s: string, p: nat)
    requires NameAt(s, p, "script")
    ensures p + 6 < |s| && s[p + 6] != '-'
  {
  }

  // ----- Whole tokens ---------------------------------------------------------------------

  /** A tag that is properly written at `p`, with its name, its attributes and its end. */
  ghost predicate TagThere(s: string, p: nat, slash: string, t: Lexed) {
    exists name, gap, attrs :: ProperTag(name, gap, attrs) && TagHere(s, p, slash, name, gap, attrs, t)
  }

  ghost predicate TagHere(s: string, p: nat, slash: string, name: string, gap: string, attrs: seq<Attr>, t: Lexed) {
    var q := p + 1 + |slash|;
    && At(s, p, TagText(slash, name, gap, attrs)) && t.pos == p + |TagText(slash, name, gap, attrs)|
    && t.data == Span(q, q + |name|)
    && t.attrs == if slash == "" then Spans(attrs, q + |name| + |gap|) else []
  }

  ghost predicate NoTagThere(s: string, p: nat, slash: string) {
    forall name, gap, attrs :: ProperTag(name, gap, attrs) ==> !At(s, p, TagText(slash, name, gap, attrs))
  }

  const ELEMENTS: set<string> := {"iframe", "noembed", "noframes", "noscript", "plaintext", "script", "style",
    "textarea", "title", "xmp"}

  /** The element whose raw text follows a start tag; `was` stays if it is none of those. */
  ghost predicate RawAfter(name: string, was: string, tag: string) {
    if exists e :: e in ELEMENTS && SameName(name, e) then tag in ELEMENTS && SameName(name, tag) else tag == was
  }

  /** A token that goes up to `x`, and takes the ">" there along. */
  function Closed(s: string, typ: TokenType, data: Span, x: nat, m: Mode): Lexed {
    Lexed(typ, data, [], if x < |s| then x + 1 else x, m.(eof := x >= |s|))
  }

  ghost predicate Bogus(s: string, q: nat, m: Mode, t: Lexed) {
    exists x: nat :: FirstAngle(s, q, x) && t == Closed(s, CommentToken, Span(q, x), x, m)
  }

  ghost predicate FirstNonSpace(s: string, p: nat, x: nat) {
    && p <= x <= |s| && (x < |s| ==> s[x] !in SPACES)
    && forall k: nat :: p <= k < x ==> s[k] in SPACES
  }

  ghost predicate DoctypeThere(s: string, q: nat, m: Mode, t: Lexed) {
    exists r: nat, x: nat ::
      FirstNonSpace(s, q, r) && FirstAngle(s, r, x) && t == Closed(s, DoctypeToken, Span(r, x), x, m)
  }

  ghost predicate CommentThere(s: string, d: nat, m: Mode, t: Lexed) {
    && 2 <= d <= |s|
    && exists j: nat ::
         && FirstClosing(s, d, d, j)
         && var e := CommentData(s, d, j);
            t == Closed(s, CommentToken, Span(d, if e < d then d else e), j, m)
  }

  ghost predicate CdataThere(s: string, d: nat, m: Mode, t: Lexed) {
    exists j: nat ::
      && FirstBrackets(s, d, d, j)
      && t == Closed(s, TextToken, Span(d, if j < |s| then j - 2 else j), j, m.(convertNul := true))
  }

  /** What follows "<!" at `q`. */
  ghost predicate BangThere(s: string, q: nat, m: Mode, allowCdata: bool, t: Lexed) {
    if q + 2 > |s| then t == Closed(s, CommentToken, Span(q, |s|), |s|, m)
    else if s[q] == '-' && s[q + 1] == '-' then CommentThere(s, q + 2, m, t)
    else if Spelled(s, q, "DOCTYPE", true) then
      if q + 7 <= |s| then DoctypeThere(s, q + 7, m, t)
      else t == Closed(s, CommentToken, Span(|s|, |s|), |s|, m)
    else if allowCdata && Spelled(s, q, "[CDATA[", false) then
      if q + 7 <= |s| then CdataThere(s, q + 7, m, t)
      else t == Closed(s, CommentToken, Span(|s|, |s|), |s|, m)
    else Bogus(s, q, m, t)
  }

  ghost predicate StartThere(s: string, p: nat, m: Mode, t: Lexed) {
    if t.mode.eof then t.typ == ErrorToken && t.pos == |s| && t.mode == m.(eof := true) && NoTagThere(s, p, "")
    else
      && TagThere(s, p, "", t) && 2 <= t.pos <= |s| && 0 <= t.data.start <= t.data.end <= |s|
      && t.typ == (if s[t.pos - 2] == '/' then SelfClosingTagToken else StartTagToken)
      && t.mode == m.(rawTag := t.mode.rawTag)
      && RawAfter(s[t.data.start..t.data.end], m.rawTag, t.mode.rawTag)
  }

  ghost predicate EndThere(s: string, p: nat, m: Mode, t: Lexed) {
    if t.mode.eof then t.typ == ErrorToken && t.pos == |s| && t.mode == m.(eof := true) && NoTagThere(s, p, "/")
    else TagThere(s, p, "/", t) && t.typ == EndTagToken && t.mode == m
  }

  /** The markup that starts at `p`. */
  ghost predicate MarkupThere(s: string, p: nat, m: Mode, allowCdata: bool, t: Lexed)
    requires p + 1 < |s|
  {
    if Letter(s[p + 1]) then StartThere(s, p, m, t)
    else if s[p + 1] == '!' then BangThere(s, p + 2, m, allowCdata, t)
    else if s[p + 1] != '/' then Bogus(s, p + 1, m, t)
    else if p + 2 == |s| then t == Closed(s, TextToken, Span(p, |s|), |s|, m)
    else if s[p + 2] == '>' then t == Closed(s, CommentToken, Span(p, p), p + 2, m)
    else if Letter(s[p + 2]) then EndThere(s, p, m, t)
    else Bogus(s, p + 2, m, t)
  }

  /** Text up to the next markup, or markup. */
  ghost predicate DataThere(s: string, p: nat, m: Mode, allowCdata: bool, t: Lexed) {
    exists x: nat ::
      && FirstStart(s, p, x)
      && if x == |s| then t == Closed(s, if p < |s| then TextToken else ErrorToken, Span(p, |s|), |s|, m)
         else if p < x then t == Lexed(TextToken, Span(p, x), [], x, m)
         else MarkupThere(s, p, m, allowCdata, t)
  }

  ghost predicate RawThere(s: string, p: nat, tag: string, k: nat)
    requires p <= |s|
  {
    if tag == "plaintext" then k == |s|
    else if tag == "script" then k == ScriptEnd(s, p, Plain)
    else FirstRawEnd(s, p, tag, p, k)
  }

  /** The token `t` that is found at `p`. */
  ghost predicate There(s: string, p: nat, m: Mode, allowCdata: bool, t: Lexed)
    requires p <= |s|
  {
    var stays := if m.rawTag == "plaintext" then m.rawTag else "";
    if m.eof then t == Lexed(ErrorToken, Span(p, p), [], p, m)
    else if m.rawTag == "" then DataThere(s, p, Mode("", false, false, false), allowCdata, t)
    else
      exists k: nat ::
        && RawThere(s, p, m.rawTag, k)
        && if p < k then
             t == Lexed(TextToken, Span(p, k), [], k, Mode(stays, m.rawTag !in {"textarea", "title"}, true, k == |s|))
           else DataThere(s, p, Mode(stays, false, false, k == |s|), allowCdata, t)
  }

  /** The tokens of the text from `p` on, up to the first error token. */
  ghost predicate Told(s: string, p: nat, m: Mode, allowCdata: bool, ps: seq<Piece>)
    requires p <= |s|
    decreases |ps|
  {
    && ps != []
    && var t := ps[0].token;
       && There(s, p, m, allowCdata, t) && p <= t.pos <= |s| && ps[0].raw == s[p..t.pos]
       && if t.typ == ErrorToken then |ps| == 1 else Told(s, t.pos, t.mode, allowCdata, ps[1..])
  }

  // ----- Proofs ----------------------------------------------------------------------------

  lemma TagIsThere(s: string, p: nat, slash: string, t: Lexed)
    requires At(s, p, "<" + slash) && p + 1 + |slash| < |s| && IsLetter(s[p + 1 + |slash|])
    requires var tag := TagAt(s, p + 2 + |slash|);
      t.data == tag.name && t.pos == tag.stop.pos && t.attrs == if slash == "" then tag.attrs else []
    ensures if TagAt(s, p + 2 + |slash|).stop.eof then NoTagThere(s, p, slash) else TagThere(s, p, slash, t)
  {
    hide At, TagAt, Letter, IsLetter, ProperTag, TagText, AttrsText, Spans;
    var q := p + 1 + |slash|;
    if TagAt(s, q + 1).stop.eof {
      forall name, gap, attrs | ProperTag(name, gap, attrs) ensures !At(s, p, TagText(slash, name, gap, attrs)) {
        if At(s, p, TagText(slash, name, gap, attrs)) {
          TagParts(s, p, slash, name, gap, attrs);
          TagRead(s, q, name, gap, attrs);
        }
      }
    } else {
      var name, gap, attrs := TagWritten(s, q);
      TagRead(s, q, name, gap, attrs);
      TagParts(s, p, slash, name, gap, attrs);
      TagLength(slash, name, gap, attrs);
      assert TagHere(s, p, slash, name, gap, attrs, t);
    }
  }

  lemma TagLength(slash: string, name: string, gap: string, attrs: seq<Attr>)
    ensures |TagText(slash, name, gap, attrs)| == 1 + |slash| + |name| + |gap| + |AttrsText(attrs)|
  {
    hide AttrsText;
  }

  lemma BogusIs(s: string, q: nat, m: Mode)
    requires q <= |s|
    ensures Bogus(s, q, m, FromMarkup(UntilCloseAngle(s, q, CommentToken), m))
  {
    hide Find, FirstAngle;
    AngleIs(s, q);
  }

  lemma BrokenIs(s: string, m: Mode)
    ensures FromMarkup(UntilCloseAngle(s, |s|, CommentToken), m) == Closed(s, CommentToken, Span(|s|, |s|), |s|, m)
  {
  }

  lemma NonSpaceIs(s: string, p: nat)
    requires p <= |s|
    ensures FirstNonSpace(s, p, Find(s, p, NotSpace))
  {
    hide Find, SPACES;
    PassedSpaces(s, p);
    var i := Find(s, p, NotSpace);
    forall k: nat | p <= k < i ensures s[k] in SPACES {
      assert s[p..i][k - p] == s[k];
    }
  }

  lemma DoctypeIs(s: string, q: nat, m: Mode)
    requires q <= |s|
    ensures var r := Find(s, q, NotSpace);
      DoctypeThere(s, q, m, FromMarkup(
        if r == |s| then Markup(DoctypeToken, Span(r, r), Stop(r, true)) else UntilCloseAngle(s, r, DoctypeToken), m))
  {
    hide Find;
    NonSpaceIs(s, q);
    var r := Find(s, q, NotSpace);
    AngleIs(s, r);
    hide FirstNonSpace, FirstAngle;
    AngleAtEnd(s);
  }

  lemma AngleAtEnd(s: string)
    ensures Find(s, |s|, Closes('>')) == |s|
  {
  }

  lemma CommentFound(s: string, d: nat, m: Mode)
    requires 2 <= d <= |s| && s[d - 1] == '-' && s[d - 2] == '-'
    ensures var r := Comment(s, d, 2);
      CommentThere(s, d, m,
        FromMarkup(Markup(CommentToken, Span(d, if r.0 < d then d else r.0), r.1), m))
  {
    hide Comment, FirstClosing;
    var j := CommentIs(s, d, d, 2);
    FirstClosingInside(s, d, j);
  }

  lemma FirstClosingInside(s: string, d: nat, j: nat)
    requires FirstClosing(s, d, d, j)
    ensures d <= j <= |s|
  {
  }

  lemma CdataFound(s: string, d: nat, m: Mode)
    requires d <= |s|
    ensures var r := CdataEnd(s, d, 0);
      CdataThere(s, d, m, FromMarkup(Markup(TextToken, Span(d, r.0), r.1), m.(convertNul := true)))
  {
    hide CdataEnd;
    var j := CdataIs(s, d, d, 0);
  }

  lemma BangFound(s: string, q: nat, m: Mode, allowCdata: bool)
    requires q <= |s|
    ensures var d := MarkupDeclaration(s, q, allowCdata);
      BangThere(s, q, m, allowCdata, FromMarkup(d, m.(convertNul := m.convertNul || d.typ == TextToken)))
  {
    hide Comment, Declaration, CommentThere, DoctypeThere, CdataThere, Bogus, Spelled;
    if q + 2 <= |s| {
      if s[q] == '-' && s[q + 1] == '-' {
        CommentFound(s, q + 2, m);
      } else {
        DeclarationFound(s, q, m, allowCdata);
      }
    }
  }

  lemma DeclarationFound(s: string, q: nat, m: Mode, allowCdata: bool)
    requires q + 2 <= |s| && !(s[q] == '-' && s[q + 1] == '-')
    ensures var d := Declaration(s, q, allowCdata);
      BangThere(s, q, m, allowCdata, FromMarkup(d, m.(convertNul := m.convertNul || d.typ == TextToken)))
  {
    hide MatchWord, Find, CdataEnd, CommentThere, DoctypeThere, CdataThere, Bogus, Spelled, UntilCloseAngle;
    WordIs(s, q, DOCTYPE, 0, true);
    WordIs(s, q, CDATA, 0, false);
    BrokenIs(s, m);
    UntilIs(s, |s|, CommentToken);
    UntilIs(s, q, CommentToken);
    BogusIs(s, q, m);
    if q + 7 <= |s| {
      var r := Find(s, q + 7, NotSpace);
      UntilIs(s, r, DoctypeToken);
      DoctypeIs(s, q + 7, m);
      CdataFound(s, q + 7, m);
    }
  }

  lemma UntilIs(s: string, q: nat, typ: TokenType)
    requires q <= |s|
    ensures UntilCloseAngle(s, q, typ).typ == typ
  {
    hide Find;
  }

  lemma ElementsAre(tag: string)
    ensures tag in RAW_TAGS <==> tag in ELEMENTS
    ensures tag in ELEMENTS ==> Small(tag) && tag != ""
  {
  }

  lemma SameNameIs(name: string, tag: string)
    requires Small(tag)
    ensures SameName(name, tag) <==> Lower(name) == tag
  {
    if SameName(name, tag) {
      assert |Lower(name)| == |tag| && forall i :: 0 <= i < |tag| ==> Lower(name)[i] == tag[i];
    }
    if Lower(name) == tag {
      forall i | 0 <= i < |tag| ensures name[i] == tag[i] || name[i] as int + 32 == tag[i] as int {
        assert Lower(name)[i] == tag[i];
      }
    }
  }

  lemma RawAfterIs(name: string, was: string)
    ensures RawAfter(name, was, if RawTagOf(name) != "" then RawTagOf(name) else was)
  {
    hide RAW_TAGS, ELEMENTS, SameName, Lower;
    var low := Lower(name);
    ElementsAre(low);
    if low in ELEMENTS {
      SameNameIs(name, low);
    }
    forall e | e in ELEMENTS && SameName(name, e) ensures e == low {
      ElementsAre(e);
      SameNameIs(name, e);
    }
  }

  lemma MarkupFound(s: string, p: nat, m: Mode, allowCdata: bool)
    requires !m.eof && p + 1 < |s| && s[p] == '<' && Opens(s[p + 1])
    ensures MarkupThere(s, p, m, allowCdata, MarkupAt(s, p, m, allowCdata))
  {
    hide TagAt, UntilCloseAngle, MarkupDeclaration, BangThere, Bogus, TagThere, NoTagThere, RawAfter, RawTagOf, At;
    hide Letter, IsLetter;
    LettersAre(s[p + 1]);
    if IsLetter(s[p + 1]) {
      StartFound(s, p, m, allowCdata);
    } else if s[p + 1] == '/' {
      if p + 2 < |s| {
        LettersAre(s[p + 2]);
        if IsLetter(s[p + 2]) {
          EndFound(s, p, m, allowCdata);
        }
        BogusIs(s, p + 2, m);
        Letterless();
      }
    } else {
      BangIs(s, p, m, allowCdata);
      BangFound(s, p + 2, m, allowCdata);
      BogusIs(s, p + 1, m);
    }
  }

  lemma Letterless()
    ensures !IsLetter('/') && !IsLetter('>') && !IsLetter('!')
  {
  }

  lemma StartFound(s: string, p: nat, m: Mode, allowCdata: bool)
    requires !m.eof && p + 1 < |s| && s[p] == '<' && IsLetter(s[p + 1])
    ensures StartThere(s, p, m, MarkupAt(s, p, m, allowCdata))
  {
    hide TagAt, TagThere, NoTagThere, RawAfter, RawTagOf, At, IsLetter;
    CharAt(s, p, '<');
    assert "<" + "" == "<";
    var t := MarkupAt(s, p, m, allowCdata);
    TagIsThere(s, p, "", t);
    RawAfterIs(s[t.data.start..t.data.end], m.rawTag);
  }

  lemma EndFound(s: string, p: nat, m: Mode, allowCdata: bool)
    requires !m.eof && p + 2 < |s| && s[p] == '<' && s[p + 1] == '/' && IsLetter(s[p + 2])
    ensures EndThere(s, p, m, MarkupAt(s, p, m, allowCdata))
  {
    hide TagAt, TagThere, NoTagThere, RawAfter, RawTagOf, At, IsLetter, UntilCloseAngle;
    BeforeIs(s, p + 2, "</");
    Letterless();
    assert "<" + "/" == "</";
    var t := MarkupAt(s, p, m, allowCdata);
    TagIsThere(s, p, "/", t);
  }

  lemma DataFound(s: string, p: nat, m: Mode, allowCdata: bool)
    requires p <= |s| && (m.eof ==> p == |s|)
    ensures DataThere(s, p, m, allowCdata, LexData(s, p, m, allowCdata))
  {
    hide TextEnd, MarkupAt, MarkupThere, Opens, Starts;
    TextIs(s, p);
    var x := TextEnd(s, p);
    if p == x < |s| {
      MarkupFound(s, p, m, allowCdata);
    }
  }

  lemma RawFound(s: string, p: nat, tag: string) returns (k: nat)
    requires p <= |s| && tag in ELEMENTS
    ensures p <= k <= |s| && RawThere(s, p, tag, k)
    ensures RawEnd(s, p, tag) == Stop(k, k == |s|)
  {
    hide Script, RawText, ScriptEnd, FirstRawEnd, RAW_TAGS;
    ElementsAre(tag);
    if tag == "plaintext" {
      k := |s|;
    } else if tag == "script" {
      BeforeIs(s, p, "");
      ScriptIs(s, p, Data);
      k := ScriptEnd(s, p, Plain);
    } else {
      k := RawTextIs(s, p, tag, p);
      assert p <= k <= |s| by { InRange(s, p, tag, k); }
    }
  }

  lemma InRange(s: string, p: nat, tag: string, k: nat)
    requires FirstRawEnd(s, p, tag, p, k)
    ensures p <= k <= |s|
  {
  }

  lemma Found(s: string, p: nat, m: Mode, allowCdata: bool)
    requires p <= |s| && (m.eof ==> p == |s|) && (m.rawTag == "" || m.rawTag in ELEMENTS)
    ensures There(s, p, m, allowCdata, Lex(s, p, m, allowCdata))
  {
    hide LexData, DataThere, RawEnd, RawThere, ELEMENTS;
    if !m.eof {
      if m.rawTag == "" {
        DataFound(s, p, Mode("", false, false, false), allowCdata);
      } else {
        var k := RawFound(s, p, m.rawTag);
        var stays := if m.rawTag == "plaintext" then m.rawTag else "";
        if k == p {
          DataFound(s, p, Mode(stays, false, false, k == |s|), allowCdata);
        }
      }
    }
  }

  lemma FromContext(name: string)
    ensures RawTagOf(name) == "" || RawTagOf(name) in ELEMENTS
  {
    hide RAW_TAGS, ELEMENTS, Lower;
    ElementsAre(RawTagOf(name));
  }

  lemma RawTagStays(s: string, p: nat, m: Mode, allowCdata: bool)
    requires p <= |s| && (m.eof ==> p == |s|) && (m.rawTag == "" || m.rawTag in ELEMENTS)
    ensures var r := Lex(s, p, m, allowCdata).mode.rawTag; r == "" || r in ELEMENTS
  {
    hide TagAt, RAW_TAGS, ELEMENTS, Lower, UntilCloseAngle, MarkupDeclaration, RawEnd, TextEnd, Opens, IsLetter;
    forall tag ensures tag in RAW_TAGS ==> tag in ELEMENTS {
      ElementsAre(tag);
    }
  }

  /** Every token of every text is the one that its characters spell. */
  lemma {:induction false} AllTold(s: string, p: nat, m: Mode, allowCdata: bool)
    requires p <= |s| && (m.eof ==> p == |s|) && (m.rawTag == "" || m.rawTag in ELEMENTS)
    ensures Told(s, p, m, allowCdata, Pieces(s, p, m, allowCdata))
    decreases |s| - p, !m.eof
  {
    hide Lex, There, ELEMENTS;
    var t := Lex(s, p, m, allowCdata);
    Found(s, p, m, allowCdata);
    RawTagStays(s, p, m, allowCdata);
    var ps := Pieces(s, p, m, allowCdata);
    if t.typ != ErrorToken {
      AllTold(s, t.pos, t.mode, allowCdata);
      assert ps[1..] == Pieces(s, t.pos, t.mode, allowCdata);
    }
  }

  /** Lexing a start tag undoes writing it, whatever is before and behind it. */
  lemma TagRoundTrip(s: string, p: nat, m: Mode, allowCdata: bool, name: string, gap: string, attrs: seq<Attr>)
    requires !m.eof && m.rawTag == "" && ProperTag(name, gap, attrs) && At(s, p, TagText("", name, gap, attrs))
    ensures var t := Lex(s, p, m, allowCdata);
      && t.data == Span(p + 1, p + 1 + |name|) && t.pos == p + |TagText("", name, gap, attrs)|
      && t.attrs == Spans(attrs, p + 1 + |name| + |gap|)
      && (t.typ == StartTagToken || t.typ == SelfClosingTagToken)
  {
    hide TagAt, RawAfter, RawTagOf, At, IsLetter, ProperTag, TagText, AttrsText, Spans, RawEnd, TextEnd;
    hide UntilCloseAngle, MarkupDeclaration;
    TagParts(s, p, "", name, gap, attrs);
    assert "<" + "" == "<";
    CharAt(s, p, '<');
    TagRead(s, p + 1, name, gap, attrs);
    TagLength("", name, gap, attrs);
    TextIs(s, p);
    LettersAre(s[p + 1]);
    assert Starts(s, p);
    assert Opens(s[p + 1]);
    assert TextEnd(s, p) == p;
  }
}
