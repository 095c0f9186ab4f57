/** The walk over subtrees with GetBulk requests (client.go, `GetBulkWalk`), for no
  * non-repeaters.
  *
  * The agent is a function of the round and of the identifiers asked for, so it may answer
  * differently each time. The walk ends against every agent that stays within finitely many
  * identifiers; against an honest agent it returns the subtrees asked for. */
module Walk {
  import opened Options
  import opened Oids
  import opened VarBinds
  import opened WalkColumns
  import WalkOverflow
  import WalkBulk

  datatype Result =
    | RequestFailed(message: string)
    | Refused(reply: Reply)
    | Walked(binds: seq<VarBind>)

  // ----- The walk ----------------------------------------------------------------------

  function OidSet(v: seq<VarBind>): set<Oid> {
    set b | b in v :: b.oid
  }

  lemma NewOid(res: seq<VarBind>, more: seq<VarBind>, o: Oid, universe: set<Oid>)
    requires !HasOid(res, o) && HasOid(more, o) && o in universe
    ensures universe - OidSet(res + more) < universe - OidSet(res)
  {
    var i :| 0 <= i < |more| && more[i].oid == o;
    assert (res + more)[|res| + i] == more[i];
    assert more[i] in res + more && o in OidSet(res + more);
    forall b | b in res
      ensures b.oid != o
    {
      var k :| 0 <= k < |res| && res[k] == b;
    }
    assert o !in OidSet(res);
    assert OidSet(res) <= OidSet(res + more);
  }

  /** Appends the values among the matched bindings; `q` becomes the last of them. */
  method Absorb(matched: seq<VarBind>, res: seq<VarBind>, q: Oid) returns (res': seq<VarBind>, q': Oid, hasError: bool)
    ensures res' == res + Presents(matched)
    ensures hasError <==> AnyMissing(matched)
    ensures q' == LastOid(Presents(matched), q)
  {
    hide Presents, AnyMissing;
    res', q', hasError := res, q, false;
    assert Presents([]) == [] && !AnyMissing([]) by {
      Nothing();
    }
    for k := 0 to |matched|
      invariant res' == res + Presents(matched[..k])
      invariant hasError <==> AnyMissing(matched[..k])
      invariant q' == LastOid(Presents(matched[..k]), q)
    {
      TakeOneMore(matched, k);
      if matched[k].variable.Present? {
        res' := res' + [matched[k]];
        q' := matched[k].oid;
      } else {
        hasError := true;
      }
    }
    assert matched[..|matched|] == matched;
  }

  lemma Nothing()
    ensures Presents([]) == [] && !AnyMissing([])
  {
  }

  /** One column of a round: what it adds to the result, and what it asks for next. */
  method WalkColumn(base: Oid, q: Oid, binds: seq<VarBind>, filled: bool, maxRepetitions: nat, res: seq<VarBind>)
    returns (res': seq<VarBind>, next: Option<Oid>)
    ensures ColumnResult(base, binds, filled && |Below(binds, base)| < maxRepetitions, res, res', next)
  {
    var matched := MatchBaseOids(binds, base);
    if |matched| == 0 {
      return res, None;
    }
    var seen := MatchOid(res, matched[|matched| - 1].oid);
    if seen != None {
      return res, None;
    }
    var q', hasError;
    res', q', hasError := Absorb(matched, res, q);
    next := Some(q');
    if hasError || (filled && |matched| < maxRepetitions) {
      next := None;
    }
  }

  /** What a round starts from, when the agent is honest. */
  ghost predicate RoundReady(mib: seq<VarBind>, oids: seq<Oid>, reqs: seq<Oid>, binds: seq<VarBind>,
      res: seq<VarBind>) {
    && Mib(mib) && PrefixFree(oids) && |reqs| == |oids|
    && (forall k :: 0 <= k < |oids| ==> oids[k] <= reqs[k])
    && SortedReply(mib, reqs, binds)
    && (forall k :: 0 <= k < |oids| ==> Column(mib, oids[k], reqs[k], res))
    && (forall r :: r in res ==> r in mib)
  }

  /** The columns before `i` have been walked, the others have not. */
  ghost predicate WalkedUpTo(mib: seq<VarBind>, oids: seq<Oid>, reqs: seq<Oid>, nexts: seq<Option<Oid>>, i: nat,
      res: seq<VarBind>)
  {
    && |reqs| == |oids| && |nexts| == i <= |oids|
    && (forall k :: 0 <= k < i ==> ColumnAfter(mib, oids[k], nexts[k], res))
    && (forall k :: i <= k < |oids| ==> Column(mib, oids[k], reqs[k], res))
    && (forall r :: r in res ==> r in mib)
  }

  ghost predicate ColumnAfter(mib: seq<VarBind>, b: Oid, next: Option<Oid>, res: seq<VarBind>) {
    match next
    case None => Complete(mib, b, res)
    case Some(q) => Column(mib, b, q, res)
  }

  lemma RoundStep(mib: seq<VarBind>, oids: seq<Oid>, reqs: seq<Oid>, nexts: seq<Option<Oid>>, binds: seq<VarBind>,
      res: seq<VarBind>, res': seq<VarBind>, next: Option<Oid>)
    requires Mib(mib) && PrefixFree(oids) && |reqs| == |oids| && |nexts| < |oids|
    requires forall k :: 0 <= k < |oids| ==> oids[k] <= reqs[k]
    requires SortedReply(mib, reqs, binds)
    requires WalkedUpTo(mib, oids, reqs, nexts, |nexts|, res)
    requires ColumnResult(oids[|nexts|], binds, false, res, res', next)
    ensures WalkedUpTo(mib, oids, reqs, nexts + [next], |nexts| + 1, res')
  {
    hide Column, Complete, PrefixFree, SortedReply, Mib, NextBind, HasOid, AnyMissing, Presents;
    var i, m := |nexts|, Below(binds, oids[|nexts|]);
    ColumnStep(mib, oids, reqs, i, binds, res);
    var more := if m == [] || HasOid(res, m[|m| - 1].oid) then [] else Presents(m);
    assert res' == res + more;
    forall k | 0 <= k < |oids| && k != i
      ensures k < i ==> ColumnAfter(mib, oids[k], nexts[k], res')
      ensures k > i ==> Column(mib, oids[k], reqs[k], res')
    {
      Incomparable(oids, i, k);
      OtherColumn(mib, oids[i], oids[k], if k > i then reqs[k] else if nexts[k] != None then nexts[k].value
          else [], res, more);
    }
    OwnColumn(mib, oids[i], m, res, more, next);
  }

  lemma OwnColumn(mib: seq<VarBind>, b: Oid, m: seq<VarBind>, res: seq<VarBind>, more: seq<VarBind>, next: Option<Oid>)
    requires m == [] || HasOid(res, m[|m| - 1].oid) ==> Complete(mib, b, res) && next == None
    requires AnyMissing(m) ==> Complete(mib, b, res) && next == None
    requires more == if m == [] || HasOid(res, m[|m| - 1].oid) then [] else Presents(m)
    requires m != [] && (forall w :: w in m ==> w.variable.Present?) ==> Column(mib, b, m[|m| - 1].oid, res + m)
    requires m != [] && !HasOid(res, m[|m| - 1].oid) && !AnyMissing(m) ==> next == Some(m[|m| - 1].oid)
    ensures ColumnAfter(mib, b, next, res + more)
  {
    if !AnyMissing(m) {
      forall w | w in m
        ensures w.variable.Present?
      {
        var k :| 0 <= k < |m| && m[k] == w;
      }
    }
  }

  predicate HasValue(v: seq<VarBind>, o: Oid) {
    exists b :: b in v && b.oid == o && b.variable.Present?
  }

  /** A column that goes on has found an identifier that was not in the result before. */
  lemma ColumnGrows(base: Oid, binds: seq<VarBind>, short: bool, res: seq<VarBind>, res': seq<VarBind>,
      next: Option<Oid>, universe: set<Oid>)
    requires ColumnResult(base, binds, short, res, res', next)
    requires forall b :: b in binds ==> b.oid in universe
    ensures res <= res' && universe - OidSet(res') <= universe - OidSet(res)
    ensures next != None ==> base <= next.value && next.value in universe
    ensures next != None ==> universe - OidSet(res') < universe - OidSet(res)
    ensures next != None ==> HasValue(binds, next.value)
    ensures forall r :: r in res' ==> r in res || (r in binds && r.variable.Present? && base <= r.oid)
  {
    var m := Below(binds, base);
    if next != None {
      assert m[|m| - 1] in m;
      forall w | w in m
        ensures w.variable.Present?
      {
        var k :| 0 <= k < |m| && m[k] == w;
      }
      assert HasOid(m, m[|m| - 1].oid);
      NewOid(res, m, m[|m| - 1].oid, universe);
    }
  }

  /** Walks every column over one sorted reply. */
  method Round(oids: seq<Oid>, reqs: seq<Oid>, binds: seq<VarBind>, filled: bool, maxRepetitions: nat,
      res: seq<VarBind>, ghost universe: set<Oid>, ghost honest: bool, ghost mib: seq<VarBind>, ghost bases: seq<Oid>,
      ghost t: nat)
    returns (res': seq<VarBind>, nexts: seq<Option<Oid>>, ghost trace: seq<seq<VarBind>>)
    requires |reqs| == |oids| && forall b :: b in binds ==> b.oid in universe
    requires honest ==> maxRepetitions == 1 && RoundReady(mib, oids, reqs, binds, res)
    requires honest ==> PrefixFree(bases) && WalkOverflow.Timed(mib, bases, oids, reqs, t, res)
    ensures |nexts| == |oids| && res <= res' && universe - OidSet(res') <= universe - OidSet(res)
    ensures forall k :: 0 <= k < |oids| && nexts[k] != None ==> oids[k] <= nexts[k].value && nexts[k].value in universe
    ensures oids != [] && (forall k :: 0 <= k < |oids| ==> nexts[k] != None) ==>
              universe - OidSet(res') < universe - OidSet(res)
    ensures forall k :: 0 <= k < |oids| && nexts[k] != None ==> HasValue(binds, nexts[k].value)
    ensures forall r :: r in res' ==> r in res || (r in binds && r.variable.Present? && Covered(oids, r.oid))
    ensures WalkBulk.Walks(oids, binds, filled, maxRepetitions, trace, nexts)
    ensures trace[0] == res && trace[|oids|] == res'
    ensures honest ==> WalkedUpTo(mib, oids, reqs, nexts, |oids|, res')
    ensures honest ==> WalkOverflow.TimedUpTo(mib, bases, oids, reqs, t, nexts, |oids|, res, res')
  {
    hide ColumnResult, Column, Covered, PrefixFree, SortedReply, OidSet, ColumnAfter, Mib, HasValue,
      WalkOverflow.Timed, WalkOverflow.TimedUpTo;
    res', nexts, trace := res, [], [res];
    if honest {
      WalkOverflow.StartRound(mib, bases, oids, reqs, t, res);
    }
    for i := 0 to |oids|
      invariant |nexts| == i && res <= res' && universe - OidSet(res') <= universe - OidSet(res)
      invariant forall k :: 0 <= k < i && nexts[k] != None ==> oids[k] <= nexts[k].value && nexts[k].value in universe
      invariant i > 0 && (forall k :: 0 <= k < i ==> nexts[k] != None) ==>
        universe - OidSet(res') < universe - OidSet(res)
      invariant forall k :: 0 <= k < i && nexts[k] != None ==> HasValue(binds, nexts[k].value)
      invariant forall r :: r in res' ==> r in res || (r in binds && r.variable.Present? && Covered(oids, r.oid))
      invariant |trace| == i + 1 && trace[0] == res && trace[i] == res'
      invariant forall k :: 0 <= k < i ==>
        ColumnResult(oids[k], binds, filled && |Below(binds, oids[k])| < maxRepetitions, trace[k], trace[k + 1],
                     nexts[k])
      invariant honest ==> WalkedUpTo(mib, oids, reqs, nexts, i, res')
      invariant honest ==> WalkOverflow.TimedUpTo(mib, bases, oids, reqs, t, nexts, i, res, res')
    {
      ghost var before := res';
      var next;
      res', next := WalkColumn(oids[i], reqs[i], binds, filled, maxRepetitions, res');
      ghost var short := filled && |Below(binds, oids[i])| < maxRepetitions;
      ColumnGrows(oids[i], binds, short, before, res', next, universe);
      CoveredByBase(oids, i);
      if honest {
        Unshort(oids[i], binds, short, before, res', next);
        RoundStep(mib, oids, reqs, nexts, binds, before, res', next);
        TimedStep(mib, bases, oids, reqs, t, nexts, binds, res, before, res', next);
      }
      nexts, trace := nexts + [next], trace + [res'];
    }
  }

  lemma TimedStep(mib: seq<VarBind>, bases: seq<Oid>, oids: seq<Oid>, reqs: seq<Oid>, t: nat, nexts: seq<Option<Oid>>,
      binds: seq<VarBind>, first: seq<VarBind>, res: seq<VarBind>, res': seq<VarBind>, next: Option<Oid>)
    requires |nexts| < |oids| && RoundReady(mib, oids, reqs, binds, first)
    requires PrefixFree(bases) && WalkOverflow.Timed(mib, bases, oids, reqs, t, first)
    requires WalkOverflow.TimedUpTo(mib, bases, oids, reqs, t, nexts, |nexts|, first, res)
    requires ColumnResult(oids[|nexts|], binds, false, res, res', next)
    ensures WalkOverflow.TimedUpTo(mib, bases, oids, reqs, t, nexts + [next], |nexts| + 1, first, res')
  {
    hide ColumnResult, Column, PrefixFree, SortedReply, Mib, WalkOverflow.InRound, WalkOverflow.Stepped;
    WalkOverflow.RoundTimed(mib, bases, oids, reqs, t, nexts, binds, first, res, res', next);
  }

  lemma CoveredByBase(oids: seq<Oid>, i: nat)
    requires i < |oids|
    ensures forall o: Oid :: oids[i] <= o ==> Covered(oids, o)
  {
  }

  /** With one repetition a column that matched anything is never short. */
  lemma Unshort(base: Oid, binds: seq<VarBind>, short: bool, res: seq<VarBind>, res': seq<VarBind>, next: Option<Oid>)
    requires ColumnResult(base, binds, short, res, res', next)
    requires short ==> |Below(binds, base)| < 1
    ensures ColumnResult(base, binds, false, res, res', next)
  {
  }

  // ----- Sweeping the columns that are done --------------------------------------------

  lemma {:induction false} NoneSwept(nexts: seq<Option<Oid>>, i: nat)
    requires i <= |nexts| && |Live(nexts, i)| == |nexts| - i
    ensures forall j :: i <= j < |nexts| ==> nexts[j] != None
    decreases |nexts| - i
  {
    if i < |nexts| {
      assert nexts[i] != None;
      NoneSwept(nexts, i + 1);
    }
  }

  /** Deletes the finished columns, from the last to the first, out of both lists. */
  method Sweep(oids: seq<Oid>, nexts: seq<Option<Oid>>) returns (oids': seq<Oid>, reqs': seq<Option<Oid>>)
    requires |oids| == |nexts|
    ensures oids' == Pick(oids, Live(nexts, 0)) && reqs' == Pick(nexts, Live(nexts, 0))
  {
    hide Live, Pick;
    SweepNothing(oids, nexts);
    SweepNothing(nexts, nexts);
    oids', reqs' := oids, nexts;
    var i := |nexts|;
    while i > 0
      invariant 0 <= i <= |nexts|
      invariant oids' == oids[..i] + Pick(oids, Live(nexts, i))
      invariant reqs' == nexts[..i] + Pick(nexts, Live(nexts, i))
    {
      i := i - 1;
      SweepStep(oids, nexts, i);
      SweepStep(nexts, nexts, i);
      if reqs'[i] == None {
        oids' := oids'[..i] + oids'[i + 1..];
        reqs' := reqs'[..i] + reqs'[i + 1..];
      }
    }
  }

  lemma SweepNothing<T>(s: seq<T>, nexts: seq<Option<Oid>>)
    requires |s| == |nexts|
    ensures s == s[..|nexts|] + Pick(s, Live(nexts, |nexts|))
    ensures forall t: seq<T> :: s[..0] + t == t
  {
  }

  lemma LiveStep(nexts: seq<Option<Oid>>, i: nat)
    requires i < |nexts|
    ensures Live(nexts, i) == (if nexts[i] == None then [] else [i]) + Live(nexts, i + 1)
  {
  }

  lemma PickFirst<T>(s: seq<T>, i: nat, idx: seq<nat>)
    requires i < |s| && forall k :: 0 <= k < |idx| ==> idx[k] < |s|
    ensures Pick(s, [i] + idx) == [s[i]] + Pick(s, idx)
  {
  }

  lemma SweepStep<T>(s: seq<T>, nexts: seq<Option<Oid>>, i: nat)
    requires |s| == |nexts| && i < |nexts|
    ensures var whole := s[..i + 1] + Pick(s, Live(nexts, i + 1));
      && |whole| > i && whole[i] == s[i]
      && (nexts[i] == None ==> whole[..i] + whole[i + 1..] == s[..i] + Pick(s, Live(nexts, i)))
      && (nexts[i] != None ==> whole == s[..i] + Pick(s, Live(nexts, i)))
  {
    hide Live;
    LiveStep(nexts, i);
    var kept := Pick(s, Live(nexts, i + 1));
    assert s[..i + 1] == s[..i] + [s[i]];
    if nexts[i] == None {
      assert (s[..i + 1] + kept)[i + 1..] == kept;
    } else {
      PickFirst(s, i, Live(nexts, i + 1));
    }
  }

  /** The remaining columns are still prefix free, and fewer if any was finished. */
  lemma Swept(oids: seq<Oid>, nexts: seq<Option<Oid>>)
    requires |oids| == |nexts|
    ensures var idx := Live(nexts, 0); var oids' := Pick(oids, idx);
      && (PrefixFree(oids) ==> PrefixFree(oids'))
      && |oids'| <= |oids| && (|oids'| == |oids| ==> forall j :: 0 <= j < |nexts| ==> nexts[j] != None)
      && (forall o :: o in oids' ==> o in oids)
      && (forall k :: 0 <= k < |idx| ==> Pick(nexts, idx)[k] != None)
  {
    if |Live(nexts, 0)| == |nexts| {
      NoneSwept(nexts, 0);
    }
  }

  lemma SweptOnTheWay(mib: seq<VarBind>, bases: seq<Oid>, oids: seq<Oid>, reqs: seq<Oid>, nexts: seq<Option<Oid>>,
      res: seq<VarBind>)
    requires |oids| == |nexts|
    requires forall b :: b in bases && b !in oids ==> Complete(mib, b, res)
    requires WalkedUpTo(mib, oids, reqs, nexts, |oids|, res)
    ensures var idx := Live(nexts, 0);
            OnTheWay(mib, bases, Pick(oids, idx), Values(Pick(nexts, idx)), res)
  {
    hide Complete, Column, Live;
    var idx := Live(nexts, 0);
    var oids' := Pick(oids, idx);
    AllLive(nexts, 0);
    forall j | 0 <= j < |oids| && nexts[j] != None
      ensures oids[j] in oids'
    {
      var k :| 0 <= k < |idx| && idx[k] == j;
      assert oids'[k] == oids[j];
    }
    forall b | b in bases && b !in oids'
      ensures Complete(mib, b, res)
    {
      if b in oids {
        var j :| 0 <= j < |oids| && oids[j] == b;
        assert ColumnAfter(mib, oids[j], nexts[j], res);
      }
    }
    forall k | 0 <= k < |idx|
      ensures Column(mib, oids'[k], Values(Pick(nexts, idx))[k], res)
    {
      assert ColumnAfter(mib, oids[idx[k]], nexts[idx[k]], res);
    }
  }

  lemma HonestIsStrict(agent: Agent, mib: seq<VarBind>)
    requires Honest(agent, mib)
    ensures Mib(mib) && Strict(mib)
  {
  }

  lemma CompleteGrows(mib: seq<VarBind>, b: Oid, res: seq<VarBind>, res': seq<VarBind>)
    requires Complete(mib, b, res) && forall r :: r in res ==> r in res'
    ensures Complete(mib, b, res')
  {
  }

  /** Sorting the reply and removing duplicates loses no identifier that was answered. */
  lemma ReplySorted(mib: seq<VarBind>, reqs: seq<Oid>, reply: seq<VarBind>, sorted: seq<VarBind>, binds: seq<VarBind>)
    requires Answers(mib, reqs, reply) && multiset(sorted) == multiset(reply)
    requires Strict(binds) && (forall b :: b in binds ==> b in sorted)
    requires forall o :: HasOid(binds, o) <==> HasOid(sorted, o)
    ensures SortedReply(mib, reqs, binds)
  {
    forall w | w in binds
      ensures exists i :: 0 <= i < |reqs| && w == NextBind(mib, reqs[i])
    {
      assert w in multiset(sorted);
      assert w in reply;
      var i :| 0 <= i < |reply| && reply[i] == w;
      assert w == NextBind(mib, reqs[i]);
    }
    forall i | 0 <= i < |reqs|
      ensures HasOid(binds, NextBind(mib, reqs[i]).oid)
    {
      var v := NextBind(mib, reqs[i]);
      assert v == reply[i] && v in multiset(reply);
      assert v in sorted;
      var k :| 0 <= k < |sorted| && sorted[k] == v;
      assert HasOid(sorted, v.oid);
    }
  }

  /** No instance of the agent lies exactly at one of the identifiers asked for. */
  predicate NoInstanceAt(mib: seq<VarBind>, bases: seq<Oid>) {
    forall e :: e in mib ==> e.oid !in bases
  }

  ghost predicate Sound(bases: seq<Oid>, res: seq<VarBind>) {
    forall r :: r in res ==> r.variable.Present? && Covered(bases, r.oid)
  }

  lemma SortedIdentity(asked: seq<Oid>, sorted: seq<Oid>)
    requires SortedBy(sorted, Identity) && multiset(sorted) == multiset(asked)
    ensures Sorted(sorted) && forall o :: o in sorted <==> o in asked
  {
    forall i, j | 0 <= i < j < |sorted|
      ensures !Less(sorted[j], sorted[i])
    {
      assert !Less(Identity(sorted[j]), Identity(sorted[i]));
    }
    forall o
      ensures o in sorted <==> o in asked
    {
      assert o in sorted <==> o in multiset(sorted);
      assert o in asked <==> o in multiset(asked);
    }
  }

  lemma StartWalk(mib: seq<VarBind>, bases: seq<Oid>)
    ensures OnTheWay(mib, bases, bases, bases, [])
  {
    forall k | 0 <= k < |bases|
      ensures Column(mib, bases[k], bases[k], [])
    {
      forall e | e in mib && bases[k] < e.oid
        ensures Less(bases[k], e.oid)
      {
        PrefixIsLess(bases[k], e.oid);
      }
    }
  }

  lemma ReplyInUniverse(agent: Agent, universe: set<Oid>, round: nat, reqs: seq<Oid>, sorted: seq<VarBind>,
      binds: seq<VarBind>)
    requires StaysIn(agent, universe) && (forall q :: q in reqs ==> q in universe) && agent(round, reqs).Pdu?
    requires multiset(sorted) == multiset(agent(round, reqs).binds)
    requires forall b :: b in binds ==> b in sorted
    ensures forall b :: b in binds ==> b.oid in universe
  {
    forall b | b in binds
      ensures b.oid in universe
    {
      assert b in multiset(sorted);
      assert b in agent(round, reqs).binds;
    }
  }

  lemma SoundRound(bases: seq<Oid>, oids: seq<Oid>, binds: seq<VarBind>, res: seq<VarBind>, res': seq<VarBind>)
    requires Sound(bases, res) && forall o :: o in oids ==> o in bases
    requires forall r :: r in res' ==> r in res || (r in binds && r.variable.Present? && Covered(oids, r.oid))
    ensures Sound(bases, res')
  {
    forall r | r in res'
      ensures r.variable.Present? && Covered(bases, r.oid)
    {
      if r !in res {
        CoveredMore(oids, bases, r.oid);
      }
    }
  }

  lemma CoveredMore(oids: seq<Oid>, bases: seq<Oid>, o: Oid)
    requires Covered(oids, o) && forall b :: b in oids ==> b in bases
    ensures Covered(bases, o)
  {
    var i :| 0 <= i < |oids| && oids[i] <= o;
    assert oids[i] in bases;
    var j :| 0 <= j < |bases| && bases[j] == oids[i];
  }

  lemma FinishedGrow(mib: seq<VarBind>, bases: seq<Oid>, oids: seq<Oid>, res: seq<VarBind>, res': seq<VarBind>)
    requires forall b :: b in bases && b !in oids ==> Complete(mib, b, res)
    requires res <= res'
    ensures forall b :: b in bases && b !in oids ==> Complete(mib, b, res')
  {
    forall b | b in bases && b !in oids
      ensures Complete(mib, b, res')
    {
      CompleteGrows(mib, b, res, res');
    }
  }

  /** Sorting the result and removing duplicates. */
  lemma Finish(asked: seq<Oid>, sorted: seq<Oid>, bases: seq<Oid>, res: seq<VarBind>, sortedRes: seq<VarBind>,
      result: seq<VarBind>)
    requires (forall o :: o in sorted <==> o in asked) && forall b :: b in bases ==> b in sorted
    requires Sound(bases, res) && multiset(sortedRes) == multiset(res)
    requires forall b :: b in result ==> b in sortedRes
    ensures Sound(asked, result) && forall b :: b in result ==> b in res
  {
    forall r | r in result
      ensures r in res && r.variable.Present? && Covered(asked, r.oid)
    {
      assert r in multiset(sortedRes);
      CoveredMore(bases, asked, r.oid);
    }
  }

  lemma NothingMissed(mib: seq<VarBind>, asked: seq<Oid>, sorted: seq<Oid>, bases: seq<Oid>, res: seq<VarBind>,
      sortedRes: seq<VarBind>, result: seq<VarBind>, e: VarBind)
    requires Strict(mib) && e in mib && StrictlyBelow(asked, e.oid)
    requires (forall o :: o in sorted <==> o in asked) && Covers(bases, sorted)
    requires (forall b :: b in bases ==> Complete(mib, b, res)) && forall r :: r in res ==> r in mib
    requires multiset(sortedRes) == multiset(res)
    requires forall b :: b in result ==> b in sortedRes
    requires forall o :: HasOid(result, o) <==> HasOid(sortedRes, o)
    ensures e in result
  {
    var i :| 0 <= i < |asked| && asked[i] < e.oid;
    assert Covered(bases, asked[i]);
    var k :| 0 <= k < |bases| && bases[k] <= asked[i];
    PrefixThrough(bases[k], asked[i], e.oid);
    assert bases[k] in bases && Complete(mib, bases[k], res);
    assert e in multiset(res);
    assert e in multiset(sortedRes);
    var n :| 0 <= n < |sortedRes| && sortedRes[n] == e;
    assert HasOid(sortedRes, e.oid);
    var m :| 0 <= m < |result| && result[m].oid == e.oid;
    assert result[m] in sortedRes;
    assert result[m] in multiset(sortedRes);
    assert result[m] in res;
    SameInstance(mib, result[m], e);
  }

  /** What a walk with any number of repetitions has found. */
  lemma BulkFound(agent: Agent, mib: seq<VarBind>, asked: seq<Oid>, sorted: seq<Oid>, bases: seq<Oid>,
      maxRepetitions: int, res: seq<VarBind>, sortedRes: seq<VarBind>, result: seq<VarBind>)
    requires WalkBulk.HonestBulk(agent, mib, maxRepetitions) && WalkBulk.OnTheWayBut(mib, bases, [], [], res)
    requires (forall o :: o in sorted <==> o in asked) && Covers(bases, sorted)
    requires multiset(sortedRes) == multiset(res) && Strict(result)
    requires forall b :: b in result ==> b in sortedRes && b in res && Covered(asked, b.oid)
    requires forall o :: HasOid(result, o) <==> HasOid(sortedRes, o)
    ensures forall e :: e in mib && StrictlyBelow(asked, e.oid) && !WalkBulk.IsLast(mib, e) ==> e in result
    ensures forall e :: e in result ==> e in mib
    ensures NoInstanceAt(mib, asked) && (mib != [] ==> !StrictlyBelow(asked, mib[|mib| - 1].oid)) ==>
      result == InSubtrees(mib, asked)
  {
    hide StrictlyBelow, Covered, Covers, HasOid, InSubtrees;
    forall e | e in mib && StrictlyBelow(asked, e.oid) && !WalkBulk.IsLast(mib, e) ensures e in result {
      FoundBut(mib, asked, sorted, bases, res, sortedRes, result, e);
    }
    if NoInstanceAt(mib, asked) && (mib != [] ==> !StrictlyBelow(asked, mib[|mib| - 1].oid)) {
      ExactResult(mib, asked, result);
    }
  }

  lemma FoundBut(mib: seq<VarBind>, asked: seq<Oid>, sorted: seq<Oid>, bases: seq<Oid>, res: seq<VarBind>,
      sortedRes: seq<VarBind>, result: seq<VarBind>, e: VarBind)
    requires Strict(mib) && e in mib && StrictlyBelow(asked, e.oid) && !WalkBulk.IsLast(mib, e)
    requires (forall o :: o in sorted <==> o in asked) && Covers(bases, sorted)
    requires (forall b :: b in bases ==> WalkBulk.CompleteBut(mib, b, res)) && forall r :: r in res ==> r in mib
    requires multiset(sortedRes) == multiset(res)
    requires forall b :: b in result ==> b in sortedRes
    requires forall o :: HasOid(result, o) <==> HasOid(sortedRes, o)
    ensures e in result
  {
    var i :| 0 <= i < |asked| && asked[i] < e.oid;
    assert Covered(bases, asked[i]);
    var k :| 0 <= k < |bases| && bases[k] <= asked[i];
    PrefixThrough(bases[k], asked[i], e.oid);
    assert bases[k] in bases && WalkBulk.CompleteBut(mib, bases[k], res);
    assert e in multiset(res) && e in multiset(sortedRes);
    var n :| 0 <= n < |sortedRes| && sortedRes[n] == e;
    assert HasOid(sortedRes, e.oid);
    var m :| 0 <= m < |result| && result[m].oid == e.oid;
    assert result[m] in sortedRes && result[m] in multiset(sortedRes);
    SameInstance(mib, result[m], e);
  }

  lemma ExactResult(mib: seq<VarBind>, asked: seq<Oid>, result: seq<VarBind>)
    requires Strict(mib) && Strict(result)
    requires forall e :: e in mib && StrictlyBelow(asked, e.oid) ==> e in result
    requires forall e :: e in result ==> e in mib && Covered(asked, e.oid)
    requires NoInstanceAt(mib, asked)
    ensures result == InSubtrees(mib, asked)
  {
    forall e | e in result
      ensures StrictlyBelow(asked, e.oid)
    {
      var i :| 0 <= i < |asked| && asked[i] <= e.oid;
      assert asked[i] in asked && asked[i] != e.oid;
    }
    InSubtreesStrict(mib, asked);
    StrictUnique(result, InSubtrees(mib, asked));
  }

  /** The bases that are walked are those of the identifiers asked for that lie below no other. */
  lemma BasesAre(asked: seq<Oid>, sorted: seq<Oid>, bases: seq<Oid>, b: Oid)
    requires (forall o :: o in sorted <==> o in asked) && Covers(bases, sorted) && PrefixFree(bases)
    requires forall o :: o in bases ==> o in sorted
    ensures b in bases <==> b in asked && !StrictlyBelow(asked, b)
  {
    hide PrefixFree;
    if b in bases && StrictlyBelow(asked, b) {
      var i :| 0 <= i < |asked| && asked[i] < b;
      assert Covered(bases, asked[i]);
      var k :| 0 <= k < |bases| && bases[k] <= asked[i];
      PrefixThrough(bases[k], asked[i], b);
      WalkOverflow.ApartInside(bases, bases[k], b);
    }
    if b in asked && !StrictlyBelow(asked, b) {
      assert Covered(bases, b);
      var k :| 0 <= k < |bases| && bases[k] <= b;
      assert bases[k] in bases;
      var i :| 0 <= i < |asked| && asked[i] == bases[k];
      assert !(asked[i] < b);
      WholePrefix(asked[i], b);
    }
  }

  lemma WholePrefix(a: Oid, b: Oid)
    requires a <= b && !(a < b)
    ensures a == b
  {
  }

  /** The instance at `b` is brought in by another of the bases. */
  predicate Brought(mib: seq<VarBind>, asked: seq<Oid>, b: Oid) {
    exists i :: 0 <= i < |asked| && !StrictlyBelow(asked, asked[i]) && WalkOverflow.Brings(mib, asked[i], b)
  }

  /** The reply in which it would come has an exception for the same identifier. */
  predicate Undecided(mib: seq<VarBind>, asked: seq<Oid>, b: Oid) {
    exists i :: 0 <= i < |asked| && !StrictlyBelow(asked, asked[i]) && WalkOverflow.Collides(mib, asked[i], b)
  }

  /** Which instances at bases are in the result. */
  lemma AtBases(mib: seq<VarBind>, asked: seq<Oid>, sorted: seq<Oid>, bases: seq<Oid>, t: nat, res: seq<VarBind>,
      sortedRes: seq<VarBind>, result: seq<VarBind>, e: VarBind)
    requires (forall o :: o in sorted <==> o in asked) && Covers(bases, sorted) && PrefixFree(bases)
    requires forall o :: o in bases ==> o in sorted
    requires WalkOverflow.Timed(mib, bases, [], [], t, res) && Strict(mib)
    requires multiset(sortedRes) == multiset(res) && forall b :: b in result ==> b in sortedRes
    requires forall o :: HasOid(result, o) <==> HasOid(sortedRes, o)
    requires e in mib && e.oid in asked && !StrictlyBelow(asked, e.oid)
    ensures Brought(mib, asked, e.oid) ==> e in result
    ensures e in result ==> Brought(mib, asked, e.oid) || Undecided(mib, asked, e.oid)
  {
    hide WalkOverflow.Brings, WalkOverflow.Collides, Covers, PrefixFree, StrictlyBelow, WalkOverflow.Timed;
    BasesAre(asked, sorted, bases, e.oid);
    WalkOverflow.AllRounds(mib, bases, t, res, e.oid);
    SameBases(mib, asked, sorted, bases, e.oid);
    Delivered(mib, bases, t, res, sortedRes, result, e);
  }

  lemma SameBases(mib: seq<VarBind>, asked: seq<Oid>, sorted: seq<Oid>, bases: seq<Oid>, b: Oid)
    requires (forall o :: o in sorted <==> o in asked) && Covers(bases, sorted) && PrefixFree(bases)
    requires forall o :: o in bases ==> o in sorted
    ensures Brought(mib, asked, b) <==> WalkOverflow.Brought(mib, bases, b)
    ensures Undecided(mib, asked, b) <==> WalkOverflow.Undecided(mib, bases, b)
  {
    hide WalkOverflow.Brings, WalkOverflow.Collides, Covers, PrefixFree, StrictlyBelow;
    forall c ensures c in bases <==> c in asked && !StrictlyBelow(asked, c) {
      BasesAre(asked, sorted, bases, c);
    }
    if Brought(mib, asked, b) {
      var i :| 0 <= i < |asked| && !StrictlyBelow(asked, asked[i]) && WalkOverflow.Brings(mib, asked[i], b);
      var k :| 0 <= k < |bases| && bases[k] == asked[i];
    }
    if Undecided(mib, asked, b) {
      var i :| 0 <= i < |asked| && !StrictlyBelow(asked, asked[i]) && WalkOverflow.Collides(mib, asked[i], b);
      var k :| 0 <= k < |bases| && bases[k] == asked[i];
    }
    if WalkOverflow.Brought(mib, bases, b) {
      var k :| 0 <= k < |bases| && WalkOverflow.Brings(mib, bases[k], b);
      assert bases[k] in bases;
      var i :| 0 <= i < |asked| && asked[i] == bases[k];
    }
    if WalkOverflow.Undecided(mib, bases, b) {
      var k :| 0 <= k < |bases| && WalkOverflow.Collides(mib, bases[k], b);
      assert bases[k] in bases;
      var i :| 0 <= i < |asked| && asked[i] == bases[k];
    }
  }

  /** An instance is in the result exactly if its identifier was found. */
  lemma Delivered(mib: seq<VarBind>, bases: seq<Oid>, t: nat, res: seq<VarBind>, sortedRes: seq<VarBind>,
      result: seq<VarBind>, e: VarBind)
    requires WalkOverflow.Timed(mib, bases, [], [], t, res) && Strict(mib) && e in mib
    requires multiset(sortedRes) == multiset(res) && forall b :: b in result ==> b in sortedRes
    requires forall o :: HasOid(result, o) <==> HasOid(sortedRes, o)
    ensures e in result <==> HasOid(res, e.oid)
  {
    if HasOid(res, e.oid) {
      var k :| 0 <= k < |res| && res[k].oid == e.oid;
      assert res[k] in multiset(sortedRes);
      var n :| 0 <= n < |sortedRes| && sortedRes[n] == res[k];
      assert HasOid(sortedRes, e.oid);
      var m :| 0 <= m < |result| && result[m].oid == e.oid;
      assert result[m] in sortedRes && result[m] in multiset(sortedRes);
      SameInstance(mib, result[m], e);
    }
    if e in result {
      assert e in sortedRes && e in multiset(res);
      var k :| 0 <= k < |res| && res[k] == e;
    }
  }

  // ----- The conversation with the agent -----------------------------------------------

  const RANGE := "NonRepeaters is range 0..2147483647"

  predicate InRange(maxRepetitions: int) {
    0 <= maxRepetitions < 0x8000_0000
  }

  /** A reply with values: no error, or a name that some agents report at the end of a subtree. */
  predicate Usable(reply: Reply) {
    reply.Pdu? && (reply.status == NoError || (reply.status == NoSuchName && reply.errorIndex > 0))
  }

  /** Every request but the last was answered with values, and every one but the first asks, for no
    * more columns than before, behind identifiers that came in the reply to the one before. */
  ghost predicate Conversation(agent: Agent, requests: seq<seq<Oid>>) {
    forall i :: 0 <= i < |requests| - 1 ==>
      Usable(agent(i, requests[i])) && Follows(agent(i, requests[i]).binds, requests[i], requests[i + 1])
  }

  ghost predicate Follows(binds: seq<VarBind>, before: seq<Oid>, after: seq<Oid>) {
    0 < |after| <= |before| && forall q :: q in after ==> HasValue(binds, q)
  }

  /** All that has been kept came in one of the replies. */
  ghost predicate FromReplies(agent: Agent, requests: seq<seq<Oid>>, res: seq<VarBind>) {
    forall b :: b in res ==> InReplies(agent, requests, b)
  }

  ghost predicate InReplies(agent: Agent, requests: seq<seq<Oid>>, b: VarBind) {
    exists i :: 0 <= i < |requests| && agent(i, requests[i]).Pdu? && b in agent(i, requests[i]).binds
  }

  lemma MoreReplies(agent: Agent, requests: seq<seq<Oid>>, reqs: seq<Oid>, binds: seq<VarBind>, res: seq<VarBind>,
      res': seq<VarBind>)
    requires FromReplies(agent, requests, res) && agent(|requests|, reqs).Pdu?
    requires forall b :: b in binds ==> b in agent(|requests|, reqs).binds
    requires forall b :: b in res' ==> b in res || b in binds
    ensures FromReplies(agent, requests + [reqs], res')
  {
    var all := requests + [reqs];
    forall b | b in res'
      ensures InReplies(agent, all, b)
    {
      if b in binds {
        assert all[|requests|] == reqs;
      } else {
        assert InReplies(agent, requests, b);
        var i :| 0 <= i < |requests| && agent(i, requests[i]).Pdu? && b in agent(i, requests[i]).binds;
        assert all[i] == requests[i];
      }
    }
  }

  /** After the answered `requests`, `reqs` comes next. */
  ghost predicate Due(agent: Agent, requests: seq<seq<Oid>>, bases: seq<Oid>, reqs: seq<Oid>) {
    && Conversation(agent, requests)
    && (if requests == [] then reqs == bases else requests[0] == bases)
    && (requests != [] ==>
          var n := |requests| - 1;
          && Usable(agent(n, requests[n]))
          && (reqs != [] ==> Follows(agent(n, requests[n]).binds, requests[n], reqs)))
  }

  lemma Ask(agent: Agent, requests: seq<seq<Oid>>, bases: seq<Oid>, reqs: seq<Oid>)
    requires Due(agent, requests, bases, reqs) && reqs != []
    ensures Conversation(agent, requests + [reqs]) && (requests + [reqs])[0] == bases
  {
    hide Follows, Usable;
    var all := requests + [reqs];
    assert forall i :: 0 <= i < |requests| ==> all[i] == requests[i];
  }

  lemma NextDue(binds: seq<VarBind>, answered: seq<VarBind>, sorted: seq<VarBind>, reqs: seq<Oid>,
      nexts: seq<Option<Oid>>)
    requires multiset(sorted) == multiset(answered) && (forall b :: b in binds ==> b in sorted)
    requires |nexts| == |reqs|
    requires forall k :: 0 <= k < |nexts| && nexts[k] != None ==> HasValue(binds, nexts[k].value)
    ensures forall b :: b in binds ==> b in answered
    ensures var idx := Live(nexts, 0); var reqs' := Values(Pick(nexts, idx));
            reqs' != [] ==> Follows(answered, reqs, reqs')
  {
    hide Live;
    forall b | b in binds
      ensures b in answered
    {
      assert b in multiset(sorted);
    }
    var idx := Live(nexts, 0);
    var reqs' := Values(Pick(nexts, idx));
    forall q | q in reqs'
      ensures HasValue(answered, q)
    {
      var k :| 0 <= k < |reqs'| && reqs'[k] == q;
      assert nexts[idx[k]] == Some(q) && HasValue(binds, q);
    }
  }

  /** The result that the last reply leads to. */
  ghost predicate Concludes(last: Reply, r: Result) {
    match last
    case Failure(message) => r == RequestFailed(message)
    case Pdu(_, _, _) => if Usable(last) then r.Walked? else r == Refused(last)
  }

  /** How the walk ends: without a request, or by the last reply. The first request is for the
    * identifiers that lie below no other. */
  ghost predicate Ended(agent: Agent, asked: seq<Oid>, maxRepetitions: int, requests: seq<seq<Oid>>, r: Result) {
    if asked == [] then requests == [] && r == Walked([])
    else if !InRange(maxRepetitions) then requests == [] && r == RequestFailed(RANGE)
    else
      && requests != []
      && (forall o :: o in requests[0] <==> o in asked && !StrictlyBelow(asked, o))
      && Conversation(agent, requests)
      && var n := |requests| - 1;
         Concludes(agent(n, requests[n]), r)
  }

  lemma EndsBy(agent: Agent, asked: seq<Oid>, sorted: seq<Oid>, bases: seq<Oid>, maxRepetitions: int,
      requests: seq<seq<Oid>>, r: Result)
    requires (forall o :: o in sorted <==> o in asked) && Covers(bases, sorted) && PrefixFree(bases)
    requires forall o :: o in bases ==> o in sorted
    requires requests != [] && requests[0] == bases && bases != [] && InRange(maxRepetitions)
    requires Conversation(agent, requests) && Concludes(agent(|requests| - 1, requests[|requests| - 1]), r)
    ensures Ended(agent, asked, maxRepetitions, requests, r)
  {
    hide Conversation, Concludes, Covers, PrefixFree, StrictlyBelow;
    assert bases[0] in sorted;
    forall o
      ensures o in bases <==> o in asked && !StrictlyBelow(asked, o)
    {
      BasesAre(asked, sorted, bases, o);
    }
  }

  /** No request is made with a number that is out of range. */
  lemma NotAsked(agent: Agent, requests: seq<seq<Oid>>, bases: seq<Oid>, reqs: seq<Oid>, asked: seq<Oid>,
      maxRepetitions: int)
    requires Due(agent, requests, bases, reqs) && reqs != [] && (bases == [] <==> asked == [])
    requires !InRange(maxRepetitions) && requests == []
    ensures Ended(agent, asked, maxRepetitions, requests, RequestFailed(RANGE))
  {
  }

  lemma NothingAsked(agent: Agent, bases: seq<Oid>)
    ensures Due(agent, [], bases, bases) && FromReplies(agent, [], [])
  {
  }

  lemma DueAgain(agent: Agent, requests: seq<seq<Oid>>, bases: seq<Oid>, reqs: seq<Oid>)
    requires requests != [] && requests[0] == bases && Conversation(agent, requests)
    requires Usable(agent(|requests| - 1, requests[|requests| - 1]))
    requires reqs != [] ==>
      Follows(agent(|requests| - 1, requests[|requests| - 1]).binds, requests[|requests| - 1], reqs)
    ensures Due(agent, requests, bases, reqs)
  {
  }

  /** At the end of the walk there is nothing left to ask for. */
  lemma Walks(agent: Agent, asked: seq<Oid>, sorted: seq<Oid>, bases: seq<Oid>, maxRepetitions: int,
      requests: seq<seq<Oid>>, res: seq<VarBind>, result: seq<VarBind>)
    requires (forall o :: o in sorted <==> o in asked) && Covers(bases, sorted) && PrefixFree(bases)
    requires (forall o :: o in bases ==> o in sorted) && (bases == [] <==> asked == [])
    requires Due(agent, requests, bases, []) && (requests != [] ==> InRange(maxRepetitions) && bases != [])
    requires FromReplies(agent, requests, res) && forall b :: b in result ==> b in res
    ensures FromReplies(agent, requests, result)
    ensures Ended(agent, asked, maxRepetitions, requests, Walked(result))
  {
    hide Conversation, Covers, PrefixFree, InReplies;
    if requests != [] {
      EndsBy(agent, asked, sorted, bases, maxRepetitions, requests, Walked(result));
    } else if result != [] {
      assert InReplies(agent, requests, result[0]);
      NoReplies(agent, result[0]);
    }
  }

  lemma NoReplies(agent: Agent, b: VarBind)
    ensures !InReplies(agent, [], b)
  {
  }

  lemma SomeBase(asked: seq<Oid>, sorted: seq<Oid>, bases: seq<Oid>)
    requires (forall o :: o in sorted <==> o in asked) && Covers(bases, sorted)
    requires forall o :: o in bases ==> o in sorted
    ensures bases == [] <==> asked == []
  {
    if asked != [] {
      assert asked[0] in sorted;
      assert Covered(bases, asked[0]);
    }
    if bases != [] {
      assert bases[0] in sorted;
    }
  }

  /** The walk, with the requests that it made. */
  method GetBulkWalk(agent: Agent, asked: seq<Oid>, maxRepetitions: int, ghost universe: set<Oid>,
      ghost mib: seq<VarBind>)
    returns (r: Result, ghost requests: seq<seq<Oid>>)
    requires StaysIn(agent, universe) && forall o :: o in asked ==> o in universe
    ensures Ended(agent, asked, maxRepetitions, requests, r)
    ensures r.Walked? ==> FromReplies(agent, requests, r.binds)
    ensures r.Walked? ==> Strict(r.binds) && Sound(asked, r.binds)
    ensures Honest(agent, mib) && maxRepetitions == 1 ==>
              && r.Walked?
              && (forall e :: e in mib && StrictlyBelow(asked, e.oid) ==> e in r.binds)
              && (forall e :: e in r.binds ==> e in mib && Covered(asked, e.oid))
    ensures WalkBulk.HonestBulk(agent, mib, maxRepetitions) && InRange(maxRepetitions) ==>
              && r.Walked?
              && (forall e :: e in mib && StrictlyBelow(asked, e.oid) && !WalkBulk.IsLast(mib, e) ==> e in r.binds)
              && (forall e :: e in r.binds ==> e in mib && Covered(asked, e.oid))
    ensures WalkBulk.HonestBulk(agent, mib, maxRepetitions) && InRange(maxRepetitions) && NoInstanceAt(mib, asked)
              && (mib != [] ==> !StrictlyBelow(asked, mib[|mib| - 1].oid)) ==>
              r == Walked(InSubtrees(mib, asked))
    ensures Honest(agent, mib) && maxRepetitions == 1 && NoInstanceAt(mib, asked) ==>
              r == Walked(InSubtrees(mib, asked))
    ensures Honest(agent, mib) && maxRepetitions == 1 ==>
              forall e :: e in mib && e.oid in asked && !StrictlyBelow(asked, e.oid) ==>
                && (Brought(mib, asked, e.oid) ==> e in r.binds)
                && (e in r.binds ==> Brought(mib, asked, e.oid) || Undecided(mib, asked, e.oid))
  {
    hide Due, Ended, FromReplies, Conversation, Follows, Brought, Undecided, WalkOverflow.Timed,
      WalkOverflow.TimedUpTo, Covered, Covers, Complete, Column, OidSet,
      Strict, PrefixFree, StrictlyBelow, InSubtrees, Below, Mib,
      SortedReply, HasOid, Live, Answers, NextBind, WalkBulk.HonestBulk, WalkBulk.OnTheWayBut, WalkBulk.Walks;
    ghost var bulk := WalkBulk.HonestBulk(agent, mib, maxRepetitions);
    ghost var honest := Honest(agent, mib) && maxRepetitions == 1;
    var sorted := Sort(asked, Identity);
    SortedIdentity(asked, sorted);
    var oids := UniqBase(sorted);
    ghost var bases := oids;
    var reqs := oids;
    var res: seq<VarBind> := [];
    var round := 0;
    requests := [];
    SomeBase(asked, sorted, bases);
    NothingAsked(agent, bases);
    StartWalk(mib, bases);
    WalkBulk.StartBut(mib, bases);
    WalkOverflow.FirstRound(mib, bases);
    while |reqs| > 0
      invariant |reqs| == |oids| && PrefixFree(oids)
      invariant forall k :: 0 <= k < |oids| ==> oids[k] <= reqs[k] && reqs[k] in universe
      invariant forall o :: o in oids ==> o in bases
      invariant Sound(bases, res)
      invariant |requests| == round && Due(agent, requests, bases, reqs) && (round > 0 ==> InRange(maxRepetitions))
      invariant bases == [] ==> reqs == [] && requests == []
      invariant FromReplies(agent, requests, res)
      invariant bulk ==> WalkBulk.OnTheWayBut(mib, bases, oids, reqs, res)
      invariant honest ==> OnTheWay(mib, bases, oids, reqs, res)
      invariant honest ==> WalkOverflow.Timed(mib, bases, oids, reqs, round, res)
      decreases |reqs|, universe - OidSet(res)
    {
      if maxRepetitions < 0 || maxRepetitions > 0x7fff_ffff {
        NotAsked(agent, requests, bases, reqs, asked, maxRepetitions);
        return RequestFailed(RANGE), requests;
      }
      var reply := agent(round, reqs);
      Ask(agent, requests, bases, reqs);
      if bulk {
        WalkBulk.Replies(agent, mib, maxRepetitions, round, reqs);
      }
      ghost var requests' := requests + [reqs];
      if reply.Failure? {
        EndsBy(agent, asked, sorted, bases, maxRepetitions, requests', RequestFailed(reply.message));
        return RequestFailed(reply.message), requests';
      }
      if reply.status != NoError && (reply.status != NoSuchName || reply.errorIndex <= 0) {
        EndsBy(agent, asked, sorted, bases, maxRepetitions, requests', Refused(reply));
        return Refused(reply), requests';
      }
      var filled := |reply.binds| == |reqs| * maxRepetitions;
      var sortedBinds := Sort(reply.binds, OidOf);
      var binds := Uniq(sortedBinds);
      ReplyInUniverse(agent, universe, round, reqs, sortedBinds, binds);
      if honest {
        ReplySorted(mib, reqs, reply.binds, sortedBinds, binds);
      }
      ghost var before := res;
      var nexts;
      ghost var trace;
      res, nexts, trace := Round(oids, reqs, binds, filled, maxRepetitions, res, universe, honest, mib, bases, round);
      NextDue(binds, reply.binds, sortedBinds, reqs, nexts);
      MoreReplies(agent, requests, reqs, binds, before, res);
      SoundRound(bases, oids, binds, before, res);
      if honest {
        FinishedGrow(mib, bases, oids, before, res);
        SweptOnTheWay(mib, bases, oids, reqs, nexts, res);
        HonestIsStrict(agent, mib);
        WalkOverflow.NextRound(mib, bases, oids, reqs, round, nexts, before, res);
      }
      if bulk {
        WalkBulk.BulkRound(agent, mib, bases, oids, reqs, round, maxRepetitions, sortedBinds, binds, trace, nexts);
      }
      Swept(oids, nexts);
      var swept;
      oids, swept := Sweep(oids, nexts);
      requests := requests';
      DueAgain(agent, requests, bases, Values(swept));
      reqs := Values(swept);
      round := round + 1;
    }
    var sortedRes := Sort(res, OidOf);
    var result := Uniq(sortedRes);
    r := Walked(result);
    Finish(asked, sorted, bases, res, sortedRes, result);
    Walks(agent, asked, sorted, bases, maxRepetitions, requests, res, result);
    if bulk {
      BulkFound(agent, mib, asked, sorted, bases, maxRepetitions, res, sortedRes, result);
    }
    if honest {
      HonestIsStrict(agent, mib);
      forall e | e in mib && StrictlyBelow(asked, e.oid)
        ensures e in result
      {
        NothingMissed(mib, asked, sorted, bases, res, sortedRes, result, e);
      }
      if NoInstanceAt(mib, asked) {
        ExactResult(mib, asked, result);
      }
      assert oids == [] && reqs == [];
      forall e | e in mib && e.oid in asked && !StrictlyBelow(asked, e.oid)
        ensures Brought(mib, asked, e.oid) ==> e in result
        ensures e in result ==> Brought(mib, asked, e.oid) || Undecided(mib, asked, e.oid)
      {
        AtBases(mib, asked, sorted, bases, round, res, sortedRes, result, e);
      }
    }
  }
}
