/** Instances that lie exactly at an identifier asked for.
  *
  * A column never asks for the instance at its own base. It can still come back, as the successor
  * that another column finds when its subtree is exhausted. Whether it is kept depends on the
  * round in which that happens. */
module WalkOverflow {
  import opened Options
  import opened Oids
  import opened VarBinds
  import opened WalkColumns

  // ----- The rounds of one column ------------------------------------------------------

  /** The instances strictly below `b`, in order. */
  function Sub(mib: seq<VarBind>, b: Oid): seq<VarBind> {
    InSubtrees(mib, [b])
  }

  /** How many rounds the column of `b` takes to find all of them. */
  function Size(mib: seq<VarBind>, b: Oid): nat {
    |Sub(mib, b)|
  }

  /** What the column of `b` asks for in round `t`. */
  function Asks(mib: seq<VarBind>, b: Oid, t: nat): Oid
    requires t <= Size(mib, b)
  {
    if t == 0 then b else Sub(mib, b)[t - 1].oid
  }

  /** The successor that the column of `b` gets when it is exhausted. */
  function Overflow(mib: seq<VarBind>, b: Oid): VarBind {
    NextBind(mib, Asks(mib, b, Size(mib, b)))
  }

  lemma SubIs(mib: seq<VarBind>, b: Oid)
    requires Strict(mib)
    ensures Strict(Sub(mib, b)) && forall e :: e in Sub(mib, b) <==> e in mib && b < e.oid
  {
    InSubtreesStrict(mib, [b]);
    forall o: Oid ensures StrictlyBelow([b], o) <==> b < o {
      assert [b][0] == b;
    }
  }

  lemma AsksBelow(mib: seq<VarBind>, b: Oid, t: nat)
    requires Strict(mib) && t <= Size(mib, b)
    ensures b <= Asks(mib, b, t)
  {
    SubIs(mib, b);
    if t > 0 {
      assert Sub(mib, b)[t - 1] in Sub(mib, b);
    }
  }

  lemma NextIs(mib: seq<VarBind>, q: Oid, e: VarBind)
    requires Strict(mib) && e in mib && Less(q, e.oid)
    ensures var v := NextBind(mib, q); v in mib && Less(q, v.oid) && (v == e || Less(v.oid, e.oid))
  {
    var j :| 0 <= j < |mib| && mib[j] == e;
    assert NextFrom(mib, q, 0) <= j;
  }

  lemma NextInMib(mib: seq<VarBind>, q: Oid)
    ensures var v := NextBind(mib, q); v == VarBind(q, EndOfMibView) || (v in mib && Less(q, v.oid))
  {
  }

  /** The place of an instance in the subtree. */
  lemma Place(mib: seq<VarBind>, b: Oid, e: VarBind) returns (j: nat)
    requires Strict(mib) && e in mib && b < e.oid
    ensures j < Size(mib, b) && Sub(mib, b)[j] == e
  {
    SubIs(mib, b);
    j :| j < |Sub(mib, b)| && Sub(mib, b)[j] == e;
  }

  /** In every round but the last, a column gets the next instance of its subtree. */
  lemma NextOfColumn(mib: seq<VarBind>, b: Oid, t: nat)
    requires Mib(mib) && t < Size(mib, b)
    ensures NextBind(mib, Asks(mib, b, t)) == Sub(mib, b)[t]
  {
    hide NextBind;
    SubIs(mib, b);
    var q, e := Asks(mib, b, t), Sub(mib, b)[t];
    assert e in Sub(mib, b);
    AsksBelow(mib, b, t);
    if t == 0 {
      PrefixIsLess(b, e.oid);
    }
    NextIs(mib, q, e);
    var v := NextBind(mib, q);
    if v != e {
      PrefixOrContiguous(b, q, v.oid, e.oid);
      AfterBase(b, q, v.oid);
      var j := Place(mib, b, v);
      Order(mib, b, j, t);
      if t > 0 {
        Order(mib, b, t - 1, j);
      }
      Trichotomy(v.oid, e.oid);
    }
  }

  lemma AfterBase(b: Oid, q: Oid, x: Oid)
    requires b <= q && Less(q, x) && b <= x
    ensures b < x
  {
    Trichotomy(b, q);
    if b != q {
      PrefixIsLess(b, q);
    }
    assert x != b;
  }

  /** The order of instances is that of their places. */
  lemma Order(mib: seq<VarBind>, b: Oid, i: nat, j: nat)
    requires Strict(mib) && i < Size(mib, b) && j < Size(mib, b)
    ensures Less(Sub(mib, b)[i].oid, Sub(mib, b)[j].oid) <==> i < j
  {
    SubIs(mib, b);
    Trichotomy(Sub(mib, b)[i].oid, Sub(mib, b)[j].oid);
  }

  /** In the last one it gets nothing of its subtree. */
  lemma NoneLeft(mib: seq<VarBind>, b: Oid)
    requires Mib(mib)
    ensures var v, q := Overflow(mib, b), Asks(mib, b, Size(mib, b));
      v == VarBind(q, EndOfMibView) || (v in mib && !(b <= v.oid))
  {
    hide NextBind;
    var n := Size(mib, b);
    var q := Asks(mib, b, n);
    var v := NextBind(mib, q);
    NextInMib(mib, q);
    AsksBelow(mib, b, n);
    if v in mib && Less(q, v.oid) && b <= v.oid {
      AfterBase(b, q, v.oid);
      var j := Place(mib, b, v);
      Order(mib, b, n - 1, j);
    }
  }

  // ----- Which of them are brought in --------------------------------------------------

  /** The column of `c`, when it is exhausted, brings in the instance at `b`, while the column of
    * `b` still finds something, or gets in the same round a successor that is no exception. */
  predicate Brings(mib: seq<VarBind>, c: Oid, b: Oid) {
    && c != b
    && Overflow(mib, c) in mib && Overflow(mib, c).oid == b
    && (Size(mib, c) < Size(mib, b) || (Size(mib, c) == Size(mib, b) && Overflow(mib, b) in mib))
  }

  predicate Brought(mib: seq<VarBind>, bases: seq<Oid>, b: Oid) {
    exists i :: 0 <= i < |bases| && Brings(mib, bases[i], b)
  }

  /** The column of `c` brings it in in the first round, in which an exception for `b` comes too,
    * and one of them is dropped as a duplicate. */
  predicate Collides(mib: seq<VarBind>, c: Oid, b: Oid) {
    && c != b && Size(mib, c) == 0 && Overflow(mib, c) in mib && Overflow(mib, c).oid == b
    && Size(mib, b) == 0 && Overflow(mib, b) !in mib
  }

  predicate Undecided(mib: seq<VarBind>, bases: seq<Oid>, b: Oid) {
    exists i :: 0 <= i < |bases| && Collides(mib, bases[i], b)
  }

  // ----- Rounds ------------------------------------------------------------------------

  /** In round `t` the column of `b` asks for `q` as if nothing had come in at its base. */
  ghost predicate OnTime(mib: seq<VarBind>, b: Oid, q: Oid, t: nat, res: seq<VarBind>) {
    t <= Size(mib, b) && q == Asks(mib, b, t) && FoundUpTo(mib, b, q, res)
  }

  /** It was exhausted, but the instance at its base has just come in, so it starts again. */
  ghost predicate Again(mib: seq<VarBind>, b: Oid, q: Oid, t: nat, res: seq<VarBind>) {
    t == Size(mib, b) + 1 && q == b && Complete(mib, b, res) && HasOid(res, b)
  }

  /** All that is known before round `t`. */
  ghost predicate Timed(mib: seq<VarBind>, bases: seq<Oid>, oids: seq<Oid>, reqs: seq<Oid>, t: nat, res: seq<VarBind>) {
    && |reqs| == |oids|
    && (forall k :: 0 <= k < |oids| ==> OnTime(mib, oids[k], reqs[k], t, res) || Again(mib, oids[k], reqs[k], t, res))
    && (forall b :: b in bases && t <= Size(mib, b) ==> b in oids)
    && (forall o :: o in oids ==> o in bases)
    && (forall r :: r in res ==> r in mib)
    && (forall b :: b in bases && HasOid(res, b) ==> Brought(mib, bases, b) || Undecided(mib, bases, b))
    && (forall b, c :: b in bases && c in bases && Brings(mib, c, b) && Size(mib, c) < t ==> HasOid(res, b))
  }

  // ----- One column of a round ---------------------------------------------------------

  /** What another column brings in below a base is the instance at the base, or the first one
    * below it if there is none. */
  lemma Matches(mib: seq<VarBind>, oids: seq<Oid>, reqs: seq<Oid>, i: nat, c: nat)
    requires Mib(mib) && PrefixFree(oids) && |reqs| == |oids| && i < |oids| && c < |oids| && c != i
    requires oids[c] <= reqs[c] && oids[i] <= NextBind(mib, reqs[c]).oid
    ensures var b, w := oids[i], NextBind(mib, reqs[c]);
      w in mib && if HasOid(mib, b) then w.oid == b else Size(mib, b) > 0 && w == Sub(mib, b)[0]
  {
    hide NextBind;
    var b, w := oids[i], NextBind(mib, reqs[c]);
    NextInMib(mib, reqs[c]);
    if oids[c] <= w.oid {
      Comparable(oids[c], b, w.oid);
    }
    if HasOid(mib, b) {
      var k :| 0 <= k < |mib| && mib[k].oid == b;
      Apart(oids[c], b, reqs[c], w.oid, b);
      NextIs(mib, reqs[c], mib[k]);
      if w.oid != b {
        PrefixIsLess(b, w.oid);
        Trichotomy(b, w.oid);
      }
    } else {
      var l :| 0 <= l < |mib| && mib[l] == w;
      var j := Place(mib, b, w);
      SubIs(mib, b);
      var f := Sub(mib, b)[0];
      assert f in Sub(mib, b);
      Apart(oids[c], b, reqs[c], w.oid, f.oid);
      NextIs(mib, reqs[c], f);
      Order(mib, b, j, 0);
      Trichotomy(w.oid, f.oid);
    }
  }

  /** The instance at `b` is the successor of what column `c` asks for. */
  predicate Comes(mib: seq<VarBind>, reqs: seq<Oid>, c: int, b: Oid) {
    0 <= c < |reqs| && NextBind(mib, reqs[c]) in mib && NextBind(mib, reqs[c]).oid == b
  }

  ghost predicate ComesToo(mib: seq<VarBind>, reqs: seq<Oid>, i: nat, b: Oid) {
    exists c :: c != i && Comes(mib, reqs, c, b)
  }

  /** One round of a column, with what is known of all of them. */
  ghost predicate Ready(mib: seq<VarBind>, oids: seq<Oid>, reqs: seq<Oid>, i: nat, binds: seq<VarBind>,
      res: seq<VarBind>) {
    && Mib(mib) && PrefixFree(oids) && |reqs| == |oids| && i < |oids|
    && (forall k :: 0 <= k < |oids| ==> oids[k] <= reqs[k])
    && SortedReply(mib, reqs, binds) && forall r :: r in res ==> r in mib
  }

  /** What is in the reply below the base. */
  lemma MatchIs(mib: seq<VarBind>, oids: seq<Oid>, reqs: seq<Oid>, i: nat, binds: seq<VarBind>, res: seq<VarBind>,
      w: VarBind)
    requires Ready(mib, oids, reqs, i, binds, res) && w in Below(binds, oids[i])
    ensures var b := oids[i];
      || w == NextBind(mib, reqs[i])
      || (w in mib && HasOid(mib, b) && w.oid == b && ComesToo(mib, reqs, i, b))
      || (w in mib && !HasOid(mib, b) && Size(mib, b) > 0 && w == Sub(mib, b)[0])
  {
    hide NextBind;
    var c :| 0 <= c < |reqs| && w == NextBind(mib, reqs[c]);
    if c != i {
      Matches(mib, oids, reqs, i, c);
      if HasOid(mib, oids[i]) {
        assert Comes(mib, reqs, c, oids[i]);
      }
    }
  }

  /** What comes in at the base is in the reply. */
  lemma ComesIn(mib: seq<VarBind>, reqs: seq<Oid>, i: nat, binds: seq<VarBind>, b: Oid)
    requires SortedReply(mib, reqs, binds) && ComesToo(mib, reqs, i, b)
    ensures HasOid(mib, b) && exists w :: w in Below(binds, b) && w.oid == b
  {
    hide NextBind;
    var c :| c != i && Comes(mib, reqs, c, b);
    assert HasOid(binds, NextBind(mib, reqs[c]).oid);
    var k :| 0 <= k < |binds| && binds[k].oid == b;
    assert binds[k] in Below(binds, b);
    var j :| 0 <= j < |mib| && mib[j] == NextBind(mib, reqs[c]);
  }

  /** A column that is not exhausted finds its next instance, and takes along what comes in. */
  lemma Advances(mib: seq<VarBind>, oids: seq<Oid>, reqs: seq<Oid>, i: nat, t: nat, binds: seq<VarBind>,
      res: seq<VarBind>, res': seq<VarBind>, next: Option<Oid>)
    requires Ready(mib, oids, reqs, i, binds, res)
    requires OnTime(mib, oids[i], reqs[i], t, res) && t < Size(mib, oids[i])
    requires ColumnResult(oids[i], binds, false, res, res', next)
    ensures next == Some(Asks(mib, oids[i], t + 1)) && OnTime(mib, oids[i], next.value, t + 1, res')
    ensures res' == res + Below(binds, oids[i]) && forall r :: r in res' ==> r in mib
    ensures HasOid(res', oids[i]) <==> HasOid(res, oids[i]) || ComesToo(mib, reqs, i, oids[i])
  {
    hide NextBind, PrefixFree;
    var b, q, m := oids[i], reqs[i], Below(binds, oids[i]);
    var v := Sub(mib, b)[t];
    SubIs(mib, b);
    assert v in Sub(mib, b);
    NextOfColumn(mib, b, t);
    NextInMib(mib, q);
    assert v !in res;
    FreshStep(mib, oids, reqs, i, binds, res);
    MatchedBelow(mib, oids, reqs, i, binds, res);
    forall e | e in mib && Less(q, e.oid) ensures !Less(e.oid, v.oid) {
      NextIs(mib, q, e);
      Trichotomy(v.oid, e.oid);
    }
    AdvanceTo(mib, b, q, v, res, m);
    AtBase(mib, oids, reqs, i, binds, res, v);
  }

  lemma AtBase(mib: seq<VarBind>, oids: seq<Oid>, reqs: seq<Oid>, i: nat, binds: seq<VarBind>, res: seq<VarBind>,
      v: VarBind)
    requires Ready(mib, oids, reqs, i, binds, res) && v == NextBind(mib, reqs[i]) && v.oid != oids[i]
    ensures HasOid(res + Below(binds, oids[i]), oids[i]) <==> HasOid(res, oids[i]) || ComesToo(mib, reqs, i, oids[i])
  {
    hide NextBind, PrefixFree, Mib;
    var b, m := oids[i], Below(binds, oids[i]);
    HasOidIn(res, m, b);
    if HasOid(m, b) {
      var k :| 0 <= k < |m| && m[k].oid == b;
      MatchIs(mib, oids, reqs, i, binds, res, m[k]);
      if !HasOid(mib, b) {
        SubIs(mib, b);
      }
    }
    if ComesToo(mib, reqs, i, b) {
      ComesIn(mib, reqs, i, binds, b);
      var w :| w in m && w.oid == b;
      var k :| 0 <= k < |m| && m[k] == w;
    }
  }

  lemma HasOidIn(a: seq<VarBind>, c: seq<VarBind>, o: Oid)
    ensures HasOid(a + c, o) <==> HasOid(a, o) || HasOid(c, o)
  {
    if HasOid(a, o) {
      var k :| 0 <= k < |a| && a[k].oid == o;
      assert (a + c)[k].oid == o;
    }
    if HasOid(c, o) {
      var k :| 0 <= k < |c| && c[k].oid == o;
      assert (a + c)[|a| + k].oid == o;
    }
  }

  /** The reply of an exhausted column: an exception, the instance at the base, or the first one
    * below it, which is known. */
  lemma LastMatch(mib: seq<VarBind>, oids: seq<Oid>, reqs: seq<Oid>, i: nat, binds: seq<VarBind>, res: seq<VarBind>,
      w: VarBind)
    requires Ready(mib, oids, reqs, i, binds, res) && w in Below(binds, oids[i])
    requires OnTime(mib, oids[i], reqs[i], Size(mib, oids[i]), res)
    ensures var b := oids[i];
      || (w == Overflow(mib, b) == VarBind(reqs[i], EndOfMibView) &&
          (if Size(mib, b) > 0 then HasOid(res, reqs[i]) && reqs[i] != b else reqs[i] == b))
      || (w in mib && w.oid == b && ComesToo(mib, reqs, i, b))
      || (w in mib && HasOid(res, w.oid) && !HasOid(mib, b) && w.oid != b)
  {
    hide NextBind, PrefixFree, Strict, SortedReply, FoundUpTo, HasOid, Sub, Overflow, ComesToo;
    var b, n := oids[i], Size(mib, oids[i]);
    MatchIs(mib, oids, reqs, i, binds, res, w);
    LastOwn(mib, b);
    if n > 0 {
      KnownInstance(mib, b, reqs[i], res, 0);
      KnownInstance(mib, b, reqs[i], res, n - 1);
    }
  }

  lemma LastOwn(mib: seq<VarBind>, b: Oid)
    requires Mib(mib)
    ensures var n := Size(mib, b);
      var v, q := Overflow(mib, b), Asks(mib, b, n);
      && v == NextBind(mib, q) && n == |Sub(mib, b)|
      && (v == VarBind(q, EndOfMibView) || !(b <= v.oid))
  {
    hide NextBind;
    NoneLeft(mib, b);
  }

  /** The instances up to the one asked for last are known. */
  lemma KnownInstance(mib: seq<VarBind>, b: Oid, q: Oid, res: seq<VarBind>, j: nat)
    requires Strict(mib) && j < Size(mib, b) && FoundUpTo(mib, b, q, res) && q == Asks(mib, b, Size(mib, b))
    ensures var e := Sub(mib, b)[j]; e in mib && b < e.oid && HasOid(res, e.oid)
  {
    SubIs(mib, b);
    var e := Sub(mib, b)[j];
    assert e in Sub(mib, b);
    Order(mib, b, Size(mib, b) - 1, j);
    assert e in res;
    var k :| 0 <= k < |res| && res[k] == e;
  }

  lemma Exhausts(mib: seq<VarBind>, oids: seq<Oid>, reqs: seq<Oid>, i: nat, binds: seq<VarBind>, res: seq<VarBind>,
      res': seq<VarBind>, next: Option<Oid>)
    requires Ready(mib, oids, reqs, i, binds, res)
    requires OnTime(mib, oids[i], reqs[i], Size(mib, oids[i]), res)
    requires ColumnResult(oids[i], binds, false, res, res', next)
    ensures next != None ==> Again(mib, oids[i], next.value, Size(mib, oids[i]) + 1, res')
    ensures res <= res' && forall r :: r in res' ==> r in mib && (r in res || r.oid == oids[i])
    ensures HasOid(res', oids[i]) && !HasOid(res, oids[i]) ==>
      ComesToo(mib, reqs, i, oids[i]) && (Size(mib, oids[i]) == 0 || Overflow(mib, oids[i]) in mib)
    ensures ComesToo(mib, reqs, i, oids[i]) && Overflow(mib, oids[i]) in mib ==> HasOid(res', oids[i])
  {
    hide NextBind, PrefixFree, Strict, FoundUpTo, HasOid, Sub, Overflow, ComesToo, Complete, Presents, Asks, Size;
    var b, m := oids[i], Below(binds, oids[i]);
    BelowIsStrict(binds, b, mib, reqs);
    LastOwn(mib, b);
    if ComesToo(mib, reqs, i, b) {
      ComesIn(mib, reqs, i, binds, b);
    }
    if m != [] {
      var last := m[|m| - 1];
      assert last in m;
      LastMatch(mib, oids, reqs, i, binds, res, last);
      if last.oid == b {
        OnlyOne(m, b);
        assert m == [last];
        ExhaustedNow(mib, b, reqs[i], res, last);
        OwnException(mib, oids, reqs, i, binds, res);
        assert res + [] == res;
      }
    }
  }

  /** The exception that an exhausted column gets is in the reply below its base. */
  lemma OwnException(mib: seq<VarBind>, oids: seq<Oid>, reqs: seq<Oid>, i: nat, binds: seq<VarBind>, res: seq<VarBind>)
    requires Ready(mib, oids, reqs, i, binds, res)
    requires OnTime(mib, oids[i], reqs[i], Size(mib, oids[i]), res)
    ensures Overflow(mib, oids[i]) !in mib ==> exists w :: w in Below(binds, oids[i]) && w.oid == reqs[i]
    ensures Size(mib, oids[i]) > 0 ==> reqs[i] != oids[i]
  {
    hide NextBind, PrefixFree, FoundUpTo;
    var b, n := oids[i], Size(mib, oids[i]);
    NoneLeft(mib, b);
    if Overflow(mib, b) !in mib {
      assert HasOid(binds, NextBind(mib, reqs[i]).oid);
      var k :| 0 <= k < |binds| && binds[k].oid == reqs[i];
      assert binds[k] in Below(binds, b);
    }
    if n > 0 {
      KnownInstance(mib, b, reqs[i], res, n - 1);
    }
  }

  lemma BelowIsStrict(binds: seq<VarBind>, b: Oid, mib: seq<VarBind>, reqs: seq<Oid>)
    requires SortedReply(mib, reqs, binds)
    ensures Strict(Below(binds, b))
  {
    BelowStrict(binds, b);
  }

  /** A list whose last identifier is the base holds nothing else. */
  lemma OnlyOne(m: seq<VarBind>, b: Oid)
    requires Strict(m) && m != [] && m[|m| - 1].oid == b && forall w :: w in m ==> b <= w.oid
    ensures |m| == 1
  {
    if |m| > 1 {
      assert m[0] in m && b <= m[0].oid && Less(m[0].oid, b);
      Trichotomy(m[0].oid, b);
      if b != m[0].oid {
        PrefixIsLess(b, m[0].oid);
      }
    }
  }

  lemma ExhaustedNow(mib: seq<VarBind>, b: Oid, q: Oid, res: seq<VarBind>, e: VarBind)
    requires Mib(mib) && OnTime(mib, b, q, Size(mib, b), res) && e.oid == b
    ensures Presents([e]) == if e.variable.Present? then [e] else []
    ensures e.variable.Present? ==> Again(mib, b, b, Size(mib, b) + 1, res + [e])
    ensures HasOid(res + [e], b)
  {
    assert [e][..0] == [];
    assert (res + [e])[|res|] == e;
    forall x | x in mib && b < x.oid ensures x in res + [e] {
      var j := Place(mib, b, x);
      KnownInstance(mib, b, q, res, j);
      Order(mib, b, Size(mib, b) - 1, j);
    }
  }

  lemma AgainIsLast(mib: seq<VarBind>, oids: seq<Oid>, reqs: seq<Oid>, i: nat, t: nat, binds: seq<VarBind>,
      res: seq<VarBind>, res': seq<VarBind>, next: Option<Oid>)
    requires Ready(mib, oids, reqs, i, binds, res) && Again(mib, oids[i], reqs[i], t, res)
    requires ColumnResult(oids[i], binds, false, res, res', next)
    ensures res' == res && next == None
  {
    hide NextBind, PrefixFree;
    var b, m := oids[i], Below(binds, oids[i]);
    if m != [] {
      var last := m[|m| - 1];
      assert last in m;
      MatchIs(mib, oids, reqs, i, binds, res, last);
      NextInMib(mib, b);
      SubIs(mib, b);
      if last in mib && last.oid != b {
        var k :| 0 <= k < |res| && res[k] == last;
      }
    }
  }

  // ----- A round of all columns --------------------------------------------------------

  /** A column in round `t`, on time or again. */
  ghost predicate InRound(mib: seq<VarBind>, b: Oid, q: Oid, t: nat, res: seq<VarBind>) {
    OnTime(mib, b, q, t, res) || Again(mib, b, q, t, res)
  }

  /** Does column `i` keep the instance at its base if it comes in? */
  predicate Keeps(mib: seq<VarBind>, b: Oid, t: nat) {
    t < Size(mib, b) || (t == Size(mib, b) && Overflow(mib, b) in mib)
  }

  /** What the round has done to column `k`. */
  ghost predicate Stepped(mib: seq<VarBind>, reqs: seq<Oid>, b: Oid, k: nat, t: nat, before: seq<VarBind>,
      res: seq<VarBind>, next: Option<Oid>) {
    && (t < Size(mib, b) ==> next != None)
    && (next != None ==> InRound(mib, b, next.value, t + 1, res))
    && (HasOid(res, b) && !HasOid(before, b) ==>
          ComesToo(mib, reqs, k, b) && (Keeps(mib, b, t) || (t == Size(mib, b) == 0 && Overflow(mib, b) !in mib)))
    && (ComesToo(mib, reqs, k, b) && Keeps(mib, b, t) ==> HasOid(res, b))
  }

  lemma TimeIs(mib: seq<VarBind>, b: Oid, q: Oid, t: nat, res: seq<VarBind>)
    requires InRound(mib, b, q, t, res) && !Again(mib, b, q, t, res)
    ensures OnTime(mib, b, q, t, res) && t <= Size(mib, b)
  {
  }

  lemma AgainSteps(mib: seq<VarBind>, oids: seq<Oid>, reqs: seq<Oid>, i: nat, t: nat, binds: seq<VarBind>,
      res: seq<VarBind>, res': seq<VarBind>, next: Option<Oid>)
    requires Ready(mib, oids, reqs, i, binds, res) && Again(mib, oids[i], reqs[i], t, res)
    requires ColumnResult(oids[i], binds, false, res, res', next)
    ensures Stepped(mib, reqs, oids[i], i, t, res, res', next) && forall r :: r in res' ==> r in mib
  {
    hide NextBind, PrefixFree, Strict, SortedReply, Complete, Size, ColumnResult, ComesToo, Overflow;
    AgainIsLast(mib, oids, reqs, i, t, binds, res, res', next);
  }

  lemma AdvanceSteps(mib: seq<VarBind>, oids: seq<Oid>, reqs: seq<Oid>, i: nat, t: nat, binds: seq<VarBind>,
      res: seq<VarBind>, res': seq<VarBind>, next: Option<Oid>)
    requires Ready(mib, oids, reqs, i, binds, res) && OnTime(mib, oids[i], reqs[i], t, res) && t < Size(mib, oids[i])
    requires ColumnResult(oids[i], binds, false, res, res', next)
    ensures Stepped(mib, reqs, oids[i], i, t, res, res', next) && forall r :: r in res' ==> r in mib
  {
    hide NextBind, PrefixFree, Strict, SortedReply, FoundUpTo, HasOid, Overflow, ComesToo, Complete, Size, ColumnResult,
      Again;
    Advances(mib, oids, reqs, i, t, binds, res, res', next);
  }

  lemma ExhaustSteps(mib: seq<VarBind>, oids: seq<Oid>, reqs: seq<Oid>, i: nat, binds: seq<VarBind>,
      res: seq<VarBind>, res': seq<VarBind>, next: Option<Oid>)
    requires Ready(mib, oids, reqs, i, binds, res) && OnTime(mib, oids[i], reqs[i], Size(mib, oids[i]), res)
    requires ColumnResult(oids[i], binds, false, res, res', next)
    ensures Stepped(mib, reqs, oids[i], i, Size(mib, oids[i]), res, res', next) && forall r :: r in res' ==> r in mib
  {
    hide NextBind, PrefixFree, Strict, SortedReply, FoundUpTo, HasOid, Overflow, ComesToo, Complete, Size, ColumnResult,
      OnTime, Again;
    Exhausts(mib, oids, reqs, i, binds, res, res', next);
  }

  lemma ColumnStepped(mib: seq<VarBind>, oids: seq<Oid>, reqs: seq<Oid>, i: nat, t: nat, binds: seq<VarBind>,
      res: seq<VarBind>, res': seq<VarBind>, next: Option<Oid>)
    requires Ready(mib, oids, reqs, i, binds, res) && InRound(mib, oids[i], reqs[i], t, res)
    requires ColumnResult(oids[i], binds, false, res, res', next)
    ensures Stepped(mib, reqs, oids[i], i, t, res, res', next)
    ensures res <= res' && (forall r :: r in res' ==> r in mib) && forall k :: |res| <= k < |res'| ==>
      oids[i] <= res'[k].oid
  {
    hide NextBind, PrefixFree, Strict, SortedReply, FoundUpTo, HasOid, Overflow, ComesToo, Complete, Size, OnTime,
      Again, ColumnResult, Stepped;
    Added(oids[i], binds, res, res', next);
    if Again(mib, oids[i], reqs[i], t, res) {
      AgainSteps(mib, oids, reqs, i, t, binds, res, res', next);
    } else {
      TimeIs(mib, oids[i], reqs[i], t, res);
      if t < Size(mib, oids[i]) {
        AdvanceSteps(mib, oids, reqs, i, t, binds, res, res', next);
      } else {
        ExhaustSteps(mib, oids, reqs, i, binds, res, res', next);
      }
    }
  }

  lemma Added(b: Oid, binds: seq<VarBind>, res: seq<VarBind>, res': seq<VarBind>, next: Option<Oid>)
    requires ColumnResult(b, binds, false, res, res', next)
    ensures res <= res' && forall k :: |res| <= k < |res'| ==> b <= res'[k].oid
  {
    var m := Below(binds, b);
    assert forall k :: |res| <= k < |res'| ==> res'[k] in Presents(m);
  }

  /** What happens below one base does not touch another. */
  lemma OtherStays(mib: seq<VarBind>, a: Oid, b: Oid, q: Oid, t: nat, res: seq<VarBind>, res': seq<VarBind>)
    requires !(a <= b) && !(b <= a) && b <= q
    requires res <= res' && forall k :: |res| <= k < |res'| ==> a <= res'[k].oid
    ensures InRound(mib, b, q, t, res) ==> InRound(mib, b, q, t, res')
    ensures HasOid(res', b) <==> HasOid(res, b)
  {
    forall r | r in res' && b <= r.oid ensures r in res {
      var k :| 0 <= k < |res'| && res'[k] == r;
      if k >= |res| {
        Comparable(a, b, r.oid);
      }
    }
    if HasOid(res, b) {
      var k :| 0 <= k < |res| && res[k].oid == b;
      assert res'[k].oid == b;
    }
    if HasOid(res', b) {
      var k :| 0 <= k < |res'| && res'[k].oid == b;
      var j :| 0 <= j < |res| && res[j] == res'[k];
    }
  }

  /** The columns before `i` have been walked, the others have not. */
  ghost predicate TimedUpTo(mib: seq<VarBind>, bases: seq<Oid>, oids: seq<Oid>, reqs: seq<Oid>, t: nat,
      nexts: seq<Option<Oid>>, i: nat, before: seq<VarBind>, res: seq<VarBind>) {
    && |reqs| == |oids| && |nexts| == i <= |oids|
    && (forall k :: 0 <= k < i ==> Stepped(mib, reqs, oids[k], k, t, before, res, nexts[k]))
    && (forall k :: i <= k < |oids| ==> InRound(mib, oids[k], reqs[k], t, res))
    && (forall r :: r in res ==> r in mib)
    && (forall b :: b in bases && b !in oids[..i] ==> (HasOid(res, b) <==> HasOid(before, b)))
    && (forall b :: HasOid(before, b) ==> HasOid(res, b))
  }

  lemma StartRound(mib: seq<VarBind>, bases: seq<Oid>, oids: seq<Oid>, reqs: seq<Oid>, t: nat, res: seq<VarBind>)
    requires Timed(mib, bases, oids, reqs, t, res)
    ensures TimedUpTo(mib, bases, oids, reqs, t, [], 0, res, res)
  {
  }

  lemma RoundTimed(mib: seq<VarBind>, bases: seq<Oid>, oids: seq<Oid>, reqs: seq<Oid>, t: nat, nexts: seq<Option<Oid>>,
      binds: seq<VarBind>, before: seq<VarBind>, res: seq<VarBind>, res': seq<VarBind>, next: Option<Oid>)
    requires |nexts| < |oids| && Ready(mib, oids, reqs, |nexts|, binds, res)
    requires TimedUpTo(mib, bases, oids, reqs, t, nexts, |nexts|, before, res)
    requires PrefixFree(bases) && forall o :: o in oids ==> o in bases
    requires ColumnResult(oids[|nexts|], binds, false, res, res', next)
    ensures TimedUpTo(mib, bases, oids, reqs, t, nexts + [next], |nexts| + 1, before, res')
  {
    hide ComesToo, Keeps, Size, SortedReply, ColumnResult, InRound, HasOid, Mib;
    var i := |nexts|;
    ColumnStepped(mib, oids, reqs, i, t, binds, res, res', next);
    assert oids[..i + 1] == oids[..i] + [oids[i]];
    forall k | 0 <= k < |oids| && k != i
      ensures k < i ==> Stepped(mib, reqs, oids[k], k, t, before, res', nexts[k])
      ensures k > i ==> InRound(mib, oids[k], reqs[k], t, res')
    {
      Incomparable(oids, i, k);
      if k > i {
        OtherStays(mib, oids[i], oids[k], reqs[k], t, res, res');
      } else {
        SteppedStays(mib, reqs, oids[i], oids[k], k, t, before, res, res', nexts[k]);
      }
    }
    forall b | b in bases && b !in oids[..i + 1]
      ensures HasOid(res', b) <==> HasOid(before, b)
    {
      assert b != oids[i] && oids[i] in bases;
      ApartInside(bases, oids[i], b);
      OtherStays(mib, oids[i], b, b, t, res, res');
    }
    HasMore(res, res');
    assert HasOid(before, oids[i]) <==> HasOid(res, oids[i]) by {
      NotYet(oids, i);
    }
  }

  lemma NotYet(oids: seq<Oid>, i: nat)
    requires PrefixFree(oids) && i < |oids|
    ensures oids[i] !in oids[..i]
  {
  }

  lemma ApartInside(bases: seq<Oid>, a: Oid, b: Oid)
    requires PrefixFree(bases) && a in bases && b in bases && a != b
    ensures !(a <= b) && !(b <= a)
  {
    var i :| 0 <= i < |bases| && bases[i] == a;
    var j :| 0 <= j < |bases| && bases[j] == b;
  }

  lemma HasMore(res: seq<VarBind>, res': seq<VarBind>)
    requires res <= res'
    ensures forall b :: HasOid(res, b) ==> HasOid(res', b)
  {
    forall b | HasOid(res, b) ensures HasOid(res', b) {
      var k :| 0 <= k < |res| && res[k].oid == b;
      assert res'[k].oid == b;
    }
  }

  lemma SteppedStays(mib: seq<VarBind>, reqs: seq<Oid>, a: Oid, b: Oid, k: nat, t: nat, before: seq<VarBind>,
      res: seq<VarBind>, res': seq<VarBind>, next: Option<Oid>)
    requires !(a <= b) && !(b <= a) && Mib(mib)
    requires res <= res' && forall j :: |res| <= j < |res'| ==> a <= res'[j].oid
    requires Stepped(mib, reqs, b, k, t, before, res, next)
    ensures Stepped(mib, reqs, b, k, t, before, res', next)
  {
    hide ComesToo, Keeps, HasOid;
    OtherStays(mib, a, b, b, t, res, res');
    if next != None {
      RoundBelow(mib, b, next.value, t + 1, res);
      OtherStays(mib, a, b, next.value, t + 1, res, res');
    }
  }

  lemma RoundBelow(mib: seq<VarBind>, b: Oid, q: Oid, t: nat, res: seq<VarBind>)
    requires Mib(mib) && InRound(mib, b, q, t, res)
    ensures b <= q
  {
    if OnTime(mib, b, q, t, res) {
      AsksBelow(mib, b, t);
    }
  }

  // ----- From round to round -----------------------------------------------------------

  /** A column through which the instance at another base comes is exhausted. */
  lemma ComesFrom(mib: seq<VarBind>, b: Oid, c: Oid, q: Oid, t: nat, res: seq<VarBind>)
    requires Mib(mib) && InRound(mib, c, q, t, res) && !(c <= b)
    requires NextBind(mib, q) in mib && NextBind(mib, q).oid == b
    ensures Size(mib, c) <= t && Overflow(mib, c) == NextBind(mib, q)
  {
    hide NextBind;
    var n := Size(mib, c);
    if OnTime(mib, c, q, t, res) {
      if t < n {
        NextOfColumn(mib, c, t);
        SubIs(mib, c);
      }
    } else if n > 0 {
      NextOfColumn(mib, c, 0);
      SubIs(mib, c);
    }
  }

  /** Whatever is known at a base was brought in. */
  lemma BroughtIn(mib: seq<VarBind>, bases: seq<Oid>, oids: seq<Oid>, reqs: seq<Oid>, t: nat, k: nat,
      before: seq<VarBind>)
    requires Mib(mib) && PrefixFree(oids) && |reqs| == |oids| && k < |oids| && forall o :: o in oids ==> o in bases
    requires forall c :: 0 <= c < |oids| ==> InRound(mib, oids[c], reqs[c], t, before)
    requires ComesToo(mib, reqs, k, oids[k])
    requires Keeps(mib, oids[k], t) || (t == Size(mib, oids[k]) == 0 && Overflow(mib, oids[k]) !in mib)
    ensures Brought(mib, bases, oids[k]) || Undecided(mib, bases, oids[k])
  {
    hide InRound, Overflow, NextBind, PrefixFree;
    var b := oids[k];
    var c :| c != k && Comes(mib, reqs, c, b);
    Incomparable(oids, c, k);
    ComesFrom(mib, b, oids[c], reqs[c], t, before);
    assert oids[c] in bases;
    var i :| 0 <= i < |bases| && bases[i] == oids[c];
    if Keeps(mib, b, t) {
      assert Brings(mib, bases[i], b);
    } else {
      assert Collides(mib, bases[i], b);
    }
  }

  /** What is to be brought in is. */
  lemma BringsNow(mib: seq<VarBind>, oids: seq<Oid>, reqs: seq<Oid>, t: nat, c: nat, k: nat, before: seq<VarBind>)
    requires |reqs| == |oids| && c < |oids| && k < |oids|
    requires InRound(mib, oids[c], reqs[c], t, before) && Size(mib, oids[c]) == t && Brings(mib, oids[c], oids[k])
    ensures ComesToo(mib, reqs, k, oids[k]) && Keeps(mib, oids[k], t)
  {
    hide NextBind;
    assert c != k;
    assert Comes(mib, reqs, c, oids[k]);
  }

  lemma NextRound(mib: seq<VarBind>, bases: seq<Oid>, oids: seq<Oid>, reqs: seq<Oid>, t: nat, nexts: seq<Option<Oid>>,
      before: seq<VarBind>, res: seq<VarBind>)
    requires Mib(mib) && PrefixFree(oids)
    requires Timed(mib, bases, oids, reqs, t, before)
    requires TimedUpTo(mib, bases, oids, reqs, t, nexts, |oids|, before, res)
    ensures var idx := Live(nexts, 0);
      Timed(mib, bases, Pick(oids, idx), Values(Pick(nexts, idx)), t + 1, res)
  {
    hide Brings, HasOid, Brought, Undecided, Live, Size, PrefixFree, Mib, Stepped, InRound, OnTime, Again;
    StillLive(mib, bases, oids, reqs, t, nexts, before, res);
    NowBrought(mib, bases, oids, reqs, t, nexts, before, res);
    NowIn(mib, bases, oids, reqs, t, nexts, before, res);
  }

  /** Columns that are not exhausted go on. */
  lemma StillLive(mib: seq<VarBind>, bases: seq<Oid>, oids: seq<Oid>, reqs: seq<Oid>, t: nat, nexts: seq<Option<Oid>>,
      before: seq<VarBind>, res: seq<VarBind>)
    requires Mib(mib) && PrefixFree(oids)
    requires Timed(mib, bases, oids, reqs, t, before)
    requires TimedUpTo(mib, bases, oids, reqs, t, nexts, |oids|, before, res)
    ensures var idx := Live(nexts, 0);
      var oids', reqs' := Pick(oids, idx), Values(Pick(nexts, idx));
      && (forall k :: 0 <= k < |oids'| ==>
            OnTime(mib, oids'[k], reqs'[k], t + 1, res) || Again(mib, oids'[k], reqs'[k], t + 1, res))
      && forall b :: b in bases && t + 1 <= Size(mib, b) ==> b in oids'
  {
    hide ComesToo, Keeps, HasOid, Brought, Undecided, Live, Size, PrefixFree, Mib, InRound, OnTime, Again;
    var idx := Live(nexts, 0);
    var oids', reqs' := Pick(oids, idx), Values(Pick(nexts, idx));
    AllLive(nexts, 0);
    forall k | 0 <= k < |oids'|
      ensures OnTime(mib, oids'[k], reqs'[k], t + 1, res) || Again(mib, oids'[k], reqs'[k], t + 1, res)
    {
      assert Stepped(mib, reqs, oids[idx[k]], idx[k], t, before, res, nexts[idx[k]]);
      RoundIs(mib, oids'[k], reqs'[k], t + 1, res);
    }
    forall b | b in bases && t + 1 <= Size(mib, b) ensures b in oids' {
      var k :| 0 <= k < |oids| && oids[k] == b;
      assert Stepped(mib, reqs, oids[k], k, t, before, res, nexts[k]);
      var j :| 0 <= j < |idx| && idx[j] == k;
      assert oids'[j] == b;
    }
  }

  lemma NowBrought(mib: seq<VarBind>, bases: seq<Oid>, oids: seq<Oid>, reqs: seq<Oid>, t: nat, nexts: seq<Option<Oid>>,
      before: seq<VarBind>, res: seq<VarBind>)
    requires Mib(mib) && PrefixFree(oids)
    requires Timed(mib, bases, oids, reqs, t, before)
    requires TimedUpTo(mib, bases, oids, reqs, t, nexts, |oids|, before, res)
    ensures forall b :: b in bases && HasOid(res, b) ==> Brought(mib, bases, b) || Undecided(mib, bases, b)
  {
    hide InRound, Keeps, ComesToo, HasOid, Brought, Undecided, Size, PrefixFree, Mib, Overflow;
    assert oids[..|oids|] == oids;
    forall k | 0 <= k < |oids| ensures InRound(mib, oids[k], reqs[k], t, before) {
      IsInRound(mib, oids[k], reqs[k], t, before);
    }
    forall b | b in bases && HasOid(res, b) ensures Brought(mib, bases, b) || Undecided(mib, bases, b) {
      if !HasOid(before, b) {
        var k :| 0 <= k < |oids| && oids[k] == b;
        assert Stepped(mib, reqs, oids[k], k, t, before, res, nexts[k]);
        BroughtIn(mib, bases, oids, reqs, t, k, before);
      }
    }
  }

  lemma NowIn(mib: seq<VarBind>, bases: seq<Oid>, oids: seq<Oid>, reqs: seq<Oid>, t: nat, nexts: seq<Option<Oid>>,
      before: seq<VarBind>, res: seq<VarBind>)
    requires Mib(mib) && PrefixFree(oids)
    requires Timed(mib, bases, oids, reqs, t, before)
    requires TimedUpTo(mib, bases, oids, reqs, t, nexts, |oids|, before, res)
    ensures forall b, c :: b in bases && c in bases && Brings(mib, c, b) && Size(mib, c) < t + 1 ==> HasOid(res, b)
  {
    hide InRound, Brings, Keeps, ComesToo, HasOid, Brought, Undecided, Size, PrefixFree, Mib, OnTime, Again;
    forall b, c | b in bases && c in bases && Brings(mib, c, b) && Size(mib, c) < t + 1 ensures HasOid(res, b) {
      if Size(mib, c) == t {
        LongEnough(mib, c, b);
        var k :| 0 <= k < |oids| && oids[k] == b;
        var l :| 0 <= l < |oids| && oids[l] == c;
        IsInRound(mib, oids[l], reqs[l], t, before);
        BringsNow(mib, oids, reqs, t, l, k, before);
        assert Stepped(mib, reqs, oids[k], k, t, before, res, nexts[k]);
      }
    }
  }

  lemma IsInRound(mib: seq<VarBind>, b: Oid, q: Oid, t: nat, res: seq<VarBind>)
    requires OnTime(mib, b, q, t, res) || Again(mib, b, q, t, res)
    ensures InRound(mib, b, q, t, res)
  {
  }

  lemma RoundIs(mib: seq<VarBind>, b: Oid, q: Oid, t: nat, res: seq<VarBind>)
    requires InRound(mib, b, q, t, res)
    ensures OnTime(mib, b, q, t, res) || Again(mib, b, q, t, res)
  {
  }

  lemma LongEnough(mib: seq<VarBind>, c: Oid, b: Oid)
    requires Brings(mib, c, b)
    ensures Size(mib, c) <= Size(mib, b) && c != b
  {
  }

  /** Before the first round nothing is known. */
  lemma FirstRound(mib: seq<VarBind>, bases: seq<Oid>)
    ensures Timed(mib, bases, bases, bases, 0, [])
  {
    forall k | 0 <= k < |bases| ensures OnTime(mib, bases[k], bases[k], 0, []) {
      forall e | e in mib && bases[k] < e.oid ensures Less(bases[k], e.oid) {
        PrefixIsLess(bases[k], e.oid);
      }
    }
  }

  /** When no column is left, it is known which of the instances at bases were found. */
  lemma AllRounds(mib: seq<VarBind>, bases: seq<Oid>, t: nat, res: seq<VarBind>, b: Oid)
    requires Timed(mib, bases, [], [], t, res) && b in bases
    ensures Brought(mib, bases, b) ==> HasOid(res, b)
    ensures HasOid(res, b) ==> Brought(mib, bases, b) || Undecided(mib, bases, b)
  {
    hide Brings, HasOid, Undecided;
    if Brought(mib, bases, b) {
      var i :| 0 <= i < |bases| && Brings(mib, bases[i], b);
      assert bases[i] in bases && Size(mib, bases[i]) < t;
    }
  }
}
