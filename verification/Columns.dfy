/** One column of a walk over subtrees with GetBulk requests (client.go, `GetBulkWalk`), against an
  * agent that answers honestly: what it has found, what it asks for, and what a reply adds. */
module WalkColumns {
  import opened Options
  import opened Oids
  import opened VarBinds

  datatype Status = NoError | NoSuchName | OtherError

  datatype Reply = Failure(message: string) | Pdu(status: Status, errorIndex: int, binds: seq<VarBind>)

  type Agent = (nat, seq<Oid>) -> Reply

  // ----- Agents ------------------------------------------------------------------------

  /** Asked about identifiers of the universe, the agent answers with such identifiers. */
  ghost predicate StaysIn(agent: Agent, universe: set<Oid>) {
    forall round: nat, reqs: seq<Oid> ::
      (forall q :: q in reqs ==> q in universe) && agent(round, reqs).Pdu? ==>
        forall b :: b in agent(round, reqs).binds ==> b.oid in universe
  }

  /** The instances of an agent: strictly sorted, all with a value. */
  predicate Mib(mib: seq<VarBind>) {
    Strict(mib) && forall b :: b in mib ==> b.variable.Present?
  }

  /** The first instance after `o`, from index `k` on. */
  function NextFrom(mib: seq<VarBind>, o: Oid, k: nat): (n: nat)
    requires k <= |mib|
    ensures k <= n <= |mib|
    ensures forall j :: k <= j < n ==> !Less(o, mib[j].oid)
    ensures n < |mib| ==> Less(o, mib[n].oid)
    decreases |mib| - k
  {
    if k == |mib| || Less(o, mib[k].oid) then k else NextFrom(mib, o, k + 1)
  }

  function NextBind(mib: seq<VarBind>, o: Oid): VarBind {
    var n := NextFrom(mib, o, 0);
    if n < |mib| then mib[n] else VarBind(o, EndOfMibView)
  }

  /** With one repetition the reply holds the successor of each identifier asked for
    * (section 4.2.3 of RFC 3416). */
  ghost predicate Honest(agent: Agent, mib: seq<VarBind>) {
    && Mib(mib)
    && forall round: nat, reqs: seq<Oid> ::
         && agent(round, reqs).Pdu? && agent(round, reqs).status == NoError
         && Answers(mib, reqs, agent(round, reqs).binds)
  }

  predicate Answers(mib: seq<VarBind>, reqs: seq<Oid>, binds: seq<VarBind>) {
    |binds| == |reqs| && forall i :: 0 <= i < |reqs| ==> binds[i] == NextBind(mib, reqs[i])
  }

  /** The range query: the instances strictly below one of the bases, in order. */
  function InSubtrees(mib: seq<VarBind>, bases: seq<Oid>): (r: seq<VarBind>)
    ensures forall b :: b in r <==> b in mib && StrictlyBelow(bases, b.oid)
  {
    if mib == [] then []
    else
      var rest := InSubtrees(mib[..|mib| - 1], bases);
      assert mib == mib[..|mib| - 1] + [mib[|mib| - 1]];
      if StrictlyBelow(bases, mib[|mib| - 1].oid) then rest + [mib[|mib| - 1]] else rest
  }

  predicate StrictlyBelow(bases: seq<Oid>, o: Oid) {
    exists i :: 0 <= i < |bases| && bases[i] < o
  }

  lemma {:induction false} InSubtreesStrict(mib: seq<VarBind>, bases: seq<Oid>)
    requires Strict(mib)
    ensures Strict(InSubtrees(mib, bases))
    decreases |mib|
  {
    if mib != [] {
      var rest := mib[..|mib| - 1];
      InSubtreesStrict(rest, bases);
      var r := InSubtrees(rest, bases);
      forall k | 0 <= k < |r|
        ensures Less(r[k].oid, mib[|mib| - 1].oid)
      {
        assert r[k] in rest;
      }
    }
  }

  // ----- The progress of one column ----------------------------------------------------

  /** Everything below `b` has been found. */
  ghost predicate Complete(mib: seq<VarBind>, b: Oid, res: seq<VarBind>) {
    forall e :: e in mib && b < e.oid ==> e in res
  }

  /** What has been found below `b` is exactly what does not come after `q`. */
  ghost predicate FoundUpTo(mib: seq<VarBind>, b: Oid, q: Oid, res: seq<VarBind>) {
    && (forall e :: e in mib && b < e.oid && !Less(q, e.oid) ==> e in res)
    && (forall r :: r in res && b <= r.oid ==> !Less(q, r.oid))
  }

  ghost predicate Column(mib: seq<VarBind>, b: Oid, q: Oid, res: seq<VarBind>) {
    b <= q && (Complete(mib, b, res) || FoundUpTo(mib, b, q, res))
  }

  /** All active columns are on their way, all others are complete. */
  ghost predicate OnTheWay(mib: seq<VarBind>, bases: seq<Oid>, oids: seq<Oid>, reqs: seq<Oid>, res: seq<VarBind>) {
    && |reqs| == |oids|
    && (forall i :: 0 <= i < |oids| ==> Column(mib, oids[i], reqs[i], res))
    && (forall b :: b in bases && b !in oids ==> Complete(mib, b, res))
    && (forall r :: r in res ==> r in mib)
  }

  /** The reply to a round, sorted and without duplicates. */
  ghost predicate SortedReply(mib: seq<VarBind>, reqs: seq<Oid>, binds: seq<VarBind>) {
    && Strict(binds)
    && (forall w :: w in binds ==> exists i :: 0 <= i < |reqs| && w == NextBind(mib, reqs[i]))
    && (forall i :: 0 <= i < |reqs| ==> HasOid(binds, NextBind(mib, reqs[i]).oid))
  }

  /** If a column is not complete, its successor is an instance below its base. */
  lemma Successor(mib: seq<VarBind>, b: Oid, q: Oid, res: seq<VarBind>)
    requires Mib(mib) && b <= q && FoundUpTo(mib, b, q, res) && !Complete(mib, b, res)
    ensures var v := NextBind(mib, q); v in mib && b < v.oid && Less(q, v.oid)
    ensures forall e :: e in mib && Less(q, e.oid) ==> !Less(e.oid, NextBind(mib, q).oid)
  {
    var e :| e in mib && b < e.oid && e !in res;
    var j :| 0 <= j < |mib| && mib[j] == e;
    var n := NextFrom(mib, q, 0);
    assert n <= j;
    if n < j {
      PrefixOrContiguous(b, q, mib[n].oid, e.oid);
    }
    Trichotomy(b, b);
    if mib[n].oid == b {
      Trichotomy(b, q);
      if b != q {
        PrefixIsLess(b, q);
      }
    }
    forall d | d in mib && Less(q, d.oid)
      ensures !Less(d.oid, mib[n].oid)
    {
      var k :| 0 <= k < |mib| && mib[k] == d;
      assert n <= k;
      Trichotomy(d.oid, mib[n].oid);
    }
  }

  lemma PrefixOrContiguous(b: Oid, q: Oid, y: Oid, z: Oid)
    requires b <= q && b <= z && Less(q, y) && Less(y, z)
    ensures b <= y
  {
    Contiguous(b, q, y, z);
  }

  /** What is matched below the base of an incomplete column is an instance that does not
    * come after the column's own successor. */
  lemma Matched(mib: seq<VarBind>, oids: seq<Oid>, reqs: seq<Oid>, i: nat, c: nat, v: VarBind)
    requires Mib(mib) && PrefixFree(oids) && |reqs| == |oids| && i < |oids| && c < |oids|
    requires forall k :: 0 <= k < |oids| ==> oids[k] <= reqs[k]
    requires v == NextBind(mib, reqs[i]) && v in mib && oids[i] < v.oid
    requires oids[i] <= NextBind(mib, reqs[c]).oid
    ensures NextBind(mib, reqs[c]) in mib && !Less(v.oid, NextBind(mib, reqs[c]).oid)
  {
    var w := NextBind(mib, reqs[c]);
    Trichotomy(v.oid, w.oid);
    if c != i {
      var n := NextFrom(mib, reqs[c], 0);
      if n == |mib| {
        Comparable(oids[c], oids[i], reqs[c]);
      }
      assert n < |mib|;
      var k :| 0 <= k < |mib| && mib[k] == v;
      Trichotomy(w.oid, v.oid);
      if Less(v.oid, w.oid) {
        Apart(oids[c], oids[i], reqs[c], w.oid, v.oid);
      }
    }
  }

  /** The last of the matched bindings of an incomplete column is its successor. */
  lemma MatchedBelow(mib: seq<VarBind>, oids: seq<Oid>, reqs: seq<Oid>, i: nat, binds: seq<VarBind>, res: seq<VarBind>)
    requires Mib(mib) && PrefixFree(oids) && |reqs| == |oids| && i < |oids|
    requires forall k :: 0 <= k < |oids| ==> oids[k] <= reqs[k]
    requires SortedReply(mib, reqs, binds)
    requires FoundUpTo(mib, oids[i], reqs[i], res) && !Complete(mib, oids[i], res)
    ensures var m := Below(binds, oids[i]);
      && m != [] && m[|m| - 1] == NextBind(mib, reqs[i])
      && forall w :: w in m ==> w in mib && !Less(NextBind(mib, reqs[i]).oid, w.oid)
  {
    hide NextBind, Complete, FoundUpTo, PrefixFree, Strict;
    var v, m := NextBind(mib, reqs[i]), Below(binds, oids[i]);
    Successor(mib, oids[i], reqs[i], res);
    BelowStrict(binds, oids[i]);
    forall w | w in m
      ensures w in mib && !Less(v.oid, w.oid)
    {
      var c :| 0 <= c < |reqs| && w == NextBind(mib, reqs[c]);
      Matched(mib, oids, reqs, i, c, v);
    }
    var k :| 0 <= k < |binds| && binds[k].oid == v.oid;
    assert binds[k] in m;
    SameInstance(mib, binds[k], v);
    LastOfStrict(m, v);
  }

  lemma LastOfStrict(m: seq<VarBind>, v: VarBind)
    requires Strict(m) && v in m && forall w :: w in m ==> !Less(v.oid, w.oid)
    ensures m[|m| - 1] == v
  {
    var l :| 0 <= l < |m| && m[l] == v;
    assert m[|m| - 1] in m;
  }

  lemma SameInstance(mib: seq<VarBind>, a: VarBind, b: VarBind)
    requires Strict(mib) && a in mib && b in mib && a.oid == b.oid
    ensures a == b
  {
    var i :| 0 <= i < |mib| && mib[i] == a;
    var j :| 0 <= j < |mib| && mib[j] == b;
    Trichotomy(a.oid, b.oid);
  }

  /** The bindings that have a value. */
  function Presents(v: seq<VarBind>): (r: seq<VarBind>)
    ensures forall b :: b in r <==> b in v && b.variable.Present?
    ensures (forall b :: b in v ==> b.variable.Present?) ==> r == v
  {
    if v == [] then []
    else
      var rest, last := Presents(v[..|v| - 1]), v[|v| - 1];
      assert v == v[..|v| - 1] + [last];
      if last.variable.Present? then rest + [last] else rest
  }

  predicate AnyMissing(v: seq<VarBind>) {
    exists k :: 0 <= k < |v| && !v[k].variable.Present?
  }

  function LastOid(v: seq<VarBind>, q: Oid): Oid {
    if v == [] then q else v[|v| - 1].oid
  }

  lemma TakeOneMore(v: seq<VarBind>, k: nat)
    requires k < |v|
    ensures v[..k + 1][..k] == v[..k] && v[..k + 1] == v[..k] + [v[k]]
    ensures AnyMissing(v[..k + 1]) <==> AnyMissing(v[..k]) || !v[k].variable.Present?
    ensures Presents(v[..k + 1]) == Presents(v[..k]) + (if v[k].variable.Present? then [v[k]] else [])
  {
    assert v[..k + 1][..k] == v[..k];
    if AnyMissing(v[..k]) {
      var j :| 0 <= j < k && !v[j].variable.Present?;
      assert v[..k + 1][j] == v[j];
    }
    assert v[..k + 1][k] == v[k];
  }

  /** Growing the result below one base does not disturb the other columns. */
  lemma OtherColumn(mib: seq<VarBind>, a: Oid, b: Oid, q: Oid, res: seq<VarBind>, more: seq<VarBind>)
    requires !(a <= b) && !(b <= a)
    requires forall m :: m in more ==> a <= m.oid
    ensures Column(mib, b, q, res) ==> Column(mib, b, q, res + more)
    ensures Complete(mib, b, res) ==> Complete(mib, b, res + more)
  {
    forall r | r in more
      ensures !(b <= r.oid)
    {
      if b <= r.oid {
        Comparable(a, b, r.oid);
      }
    }
  }

  /** One column absorbs what the reply holds below its base. */
  lemma ColumnStep(mib: seq<VarBind>, oids: seq<Oid>, reqs: seq<Oid>, i: nat, binds: seq<VarBind>, res: seq<VarBind>)
    requires Mib(mib) && PrefixFree(oids) && |reqs| == |oids| && i < |oids|
    requires forall k :: 0 <= k < |oids| ==> oids[k] <= reqs[k]
    requires SortedReply(mib, reqs, binds)
    requires Column(mib, oids[i], reqs[i], res)
    requires forall r :: r in res ==> r in mib
    ensures var m := Below(binds, oids[i]);
      && (m == [] || HasOid(res, m[|m| - 1].oid) ==> Complete(mib, oids[i], res))
      && (AnyMissing(m) ==> Complete(mib, oids[i], res))
      && (m != [] && (forall w :: w in m ==> w.variable.Present?) ==>
            Column(mib, oids[i], m[|m| - 1].oid, res + m))
      && forall w :: w in m && w.variable.Present? ==> w in mib
  {
    var b, q, m := oids[i], reqs[i], Below(binds, oids[i]);
    if Complete(mib, b, res) {
      forall w | w in m && w.variable.Present?
        ensures w in mib
      {
        var c :| 0 <= c < |reqs| && w == NextBind(mib, reqs[c]);
      }
      if m != [] {
        assert m[|m| - 1] in m;
      }
    } else {
      FreshStep(mib, oids, reqs, i, binds, res);
    }
  }

  lemma FreshStep(mib: seq<VarBind>, oids: seq<Oid>, reqs: seq<Oid>, i: nat, binds: seq<VarBind>, res: seq<VarBind>)
    requires Mib(mib) && PrefixFree(oids) && |reqs| == |oids| && i < |oids|
    requires forall k :: 0 <= k < |oids| ==> oids[k] <= reqs[k]
    requires SortedReply(mib, reqs, binds)
    requires FoundUpTo(mib, oids[i], reqs[i], res) && !Complete(mib, oids[i], res)
    ensures var m := Below(binds, oids[i]);
      && m != [] && !HasOid(res, m[|m| - 1].oid) && !AnyMissing(m)
      && Column(mib, oids[i], m[|m| - 1].oid, res + m)
      && forall w :: w in m ==> w in mib
  {
    var b, q, m := oids[i], reqs[i], Below(binds, oids[i]);
    var v := NextBind(mib, q);
    Successor(mib, b, q, res);
    MatchedBelow(mib, oids, reqs, i, binds, res);
    forall k | 0 <= k < |res|
      ensures res[k].oid != v.oid
    {
      assert res[k] in res && b <= v.oid;
    }
    forall k | 0 <= k < |m|
      ensures m[k].variable.Present?
    {
      assert m[k] in m;
    }
    AdvanceTo(mib, b, q, v, res, m);
  }

  lemma AdvanceTo(mib: seq<VarBind>, b: Oid, q: Oid, v: VarBind, res: seq<VarBind>, m: seq<VarBind>)
    requires Strict(mib) && FoundUpTo(mib, b, q, res)
    requires v in m && v in mib && b < v.oid && Less(q, v.oid)
    requires forall w :: w in m ==> w in mib && !Less(v.oid, w.oid)
    requires forall e :: e in mib && Less(q, e.oid) ==> !Less(e.oid, v.oid)
    ensures FoundUpTo(mib, b, v.oid, res + m)
  {
    forall e | e in mib && b < e.oid && !Less(v.oid, e.oid)
      ensures e in res + m
    {
      if Less(q, e.oid) {
        Trichotomy(e.oid, v.oid);
        SameInstance(mib, e, v);
      }
    }
    forall r | r in res + m && b <= r.oid
      ensures !Less(v.oid, r.oid)
    {
      if r in res {
        assert !Less(q, r.oid);
        if Less(v.oid, r.oid) {
          Transitive(q, v.oid, r.oid);
        }
      }
    }
  }

  lemma Incomparable(oids: seq<Oid>, i: nat, k: nat)
    requires PrefixFree(oids) && i < |oids| && k < |oids| && i != k
    ensures !(oids[i] <= oids[k]) && !(oids[k] <= oids[i])
  {
  }

  // ----- Rounds ------------------------------------------------------------------------

  /** What a column of a round does; `short` tells that its share of the reply was not filled. */
  ghost predicate ColumnResult(base: Oid, binds: seq<VarBind>, short: bool, res: seq<VarBind>, res': seq<VarBind>,
      next: Option<Oid>)
  {
    var m := Below(binds, base);
    if m == [] || HasOid(res, m[|m| - 1].oid) then res' == res && next == None
    else
      && res' == res + Presents(m)
      && next == (if AnyMissing(m) || short then None else Some(m[|m| - 1].oid))
  }

  function Live(nexts: seq<Option<Oid>>, i: nat): (idx: seq<nat>)
    requires i <= |nexts|
    ensures forall k :: 0 <= k < |idx| ==> i <= idx[k] < |nexts| && nexts[idx[k]] != None
    ensures forall j, k :: 0 <= j < k < |idx| ==> idx[j] < idx[k]
    ensures |idx| <= |nexts| - i
    decreases |nexts| - i
  {
    if i == |nexts| then []
    else if nexts[i] == None then Live(nexts, i + 1)
    else [i] + Live(nexts, i + 1)
  }

  lemma {:induction false} AllLive(nexts: seq<Option<Oid>>, i: nat)
    requires i <= |nexts|
    ensures forall j :: i <= j < |nexts| && nexts[j] != None ==> j in Live(nexts, i)
    decreases |nexts| - i
  {
    if i < |nexts| {
      AllLive(nexts, i + 1);
      forall j | i <= j < |nexts| && nexts[j] != None
        ensures j in Live(nexts, i)
      {
        if j > i {
          assert j in Live(nexts, i + 1);
        }
      }
    }
  }

  function Pick<T>(s: seq<T>, idx: seq<nat>): seq<T>
    requires forall k :: 0 <= k < |idx| ==> idx[k] < |s|
  {
    seq(|idx|, k requires 0 <= k < |idx| => s[idx[k]])
  }

  function Values(reqs: seq<Option<Oid>>): seq<Oid>
    requires forall k :: 0 <= k < |reqs| ==> reqs[k] != None
  {
    seq(|reqs|, k requires 0 <= k < |reqs| => reqs[k].value)
  }
}
