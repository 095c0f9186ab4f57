/** A walk with any number of repetitions against an agent that answers honestly (client.go,
  * `GetBulkWalk`; section 4.2.3 of RFC 3416): a reply holds, of each column, one or more of the
  * values that follow. */
module WalkBulk {
  import opened Options
  import opened Oids
  import opened VarBinds
  import opened WalkColumns

  // ----- Agents ------------------------------------------------------------------------

  /** The value in row `r` of the column that asks for what follows `q`. Behind the end of the MIB
    * the last identifier is named again, with an exception. */
  function Row(mib: seq<VarBind>, q: Oid, r: nat): VarBind {
    var n := NextFrom(mib, q, 0);
    if n + r < |mib| then mib[n + r]
    else VarBind(if n < |mib| then mib[|mib| - 1].oid else q, EndOfMibView)
  }

  function Sum(counts: seq<nat>): nat {
    if counts == [] then 0 else counts[0] + Sum(counts[1..])
  }

  /** The reply holds the first rows of every column, at least one and at most `most`. */
  ghost predicate Delivers(mib: seq<VarBind>, reqs: seq<Oid>, counts: seq<nat>, most: int, binds: seq<VarBind>) {
    && |counts| == |reqs| && Sum(counts) == |binds| && (forall c :: 0 <= c < |reqs| ==> 1 <= counts[c] <= most)
    && (forall c: nat, r: nat :: c < |reqs| && r < counts[c] ==> Row(mib, reqs[c], r) in binds)
    && (forall w :: w in binds ==> InRow(mib, reqs, counts, w))
  }

  ghost predicate InRow(mib: seq<VarBind>, reqs: seq<Oid>, counts: seq<nat>, w: VarBind)
    requires |counts| == |reqs|
  {
    exists c: nat, r: nat :: c < |reqs| && r < counts[c] && w == Row(mib, reqs[c], r)
  }

  ghost predicate HonestBulk(agent: Agent, mib: seq<VarBind>, most: int) {
    && Mib(mib)
    && forall round: nat, reqs: seq<Oid> ::
         && agent(round, reqs).Pdu? && agent(round, reqs).status == NoError
         && exists counts :: Delivers(mib, reqs, counts, most, agent(round, reqs).binds)
  }

  lemma Replies(agent: Agent, mib: seq<VarBind>, most: int, round: nat, reqs: seq<Oid>)
    requires HonestBulk(agent, mib, most)
    ensures agent(round, reqs).Pdu? && agent(round, reqs).status == NoError
  {
  }

  /** If as many values as possible came, as many came for every column. */
  lemma {:induction false} AllFull(counts: seq<nat>, most: nat)
    requires (forall c :: 0 <= c < |counts| ==> counts[c] <= most)
    ensures Sum(counts) <= |counts| * most
    ensures Sum(counts) == |counts| * most ==> forall c :: 0 <= c < |counts| ==> counts[c] == most
    decreases |counts|
  {
    if counts != [] {
      var rest := counts[1..];
      AllFull(rest, most);
      assert |counts| * most == most + |rest| * most;
      if Sum(counts) == |counts| * most {
        forall c | 0 <= c < |counts| ensures counts[c] == most {
          assert c > 0 ==> counts[c] == rest[c - 1];
        }
      }
    }
  }

  // ----- Columns -----------------------------------------------------------------------

  /** The last instance of the agent, if `e` is it, may be lost: a reply may name it again with an
    * exception, and of the two one is kept. */
  predicate IsLast(mib: seq<VarBind>, e: VarBind) {
    mib != [] && e == mib[|mib| - 1]
  }

  /** Everything below `b` has been found, but perhaps the last instance of all. */
  ghost predicate CompleteBut(mib: seq<VarBind>, b: Oid, res: seq<VarBind>) {
    forall e :: e in mib && b < e.oid && !IsLast(mib, e) ==> e in res
  }

  ghost predicate ColumnBut(mib: seq<VarBind>, b: Oid, q: Oid, res: seq<VarBind>) {
    b <= q && (CompleteBut(mib, b, res) || FoundUpTo(mib, b, q, res))
  }

  ghost predicate AfterBut(mib: seq<VarBind>, b: Oid, next: Option<Oid>, res: seq<VarBind>) {
    match next
    case None => CompleteBut(mib, b, res)
    case Some(q) => ColumnBut(mib, b, q, res)
  }

  /** The reply, sorted and without duplicates. */
  ghost predicate SortedRows(mib: seq<VarBind>, reqs: seq<Oid>, counts: seq<nat>, binds: seq<VarBind>) {
    && |counts| == |reqs| && Strict(binds) && (forall c :: 0 <= c < |reqs| ==> counts[c] >= 1)
    && (forall w :: w in binds ==> InRow(mib, reqs, counts, w))
    && (forall c: nat, r: nat :: c < |reqs| && r < counts[c] ==> HasOid(binds, Row(mib, reqs[c], r).oid))
  }

  /** What a round starts from. */
  ghost predicate BulkReady(mib: seq<VarBind>, oids: seq<Oid>, reqs: seq<Oid>, counts: seq<nat>, binds: seq<VarBind>) {
    && Mib(mib) && PrefixFree(oids) && |reqs| == |oids|
    && (forall k :: 0 <= k < |oids| ==> oids[k] <= reqs[k])
    && SortedRows(mib, reqs, counts, binds)
  }

  /** An exception carries the last identifier, or that of its own column. */
  lemma Exceptions(mib: seq<VarBind>, q: Oid, r: nat)
    requires Mib(mib)
    ensures var w, n := Row(mib, q, r), NextFrom(mib, q, 0);
      && (w.variable.Present? <==> n + r < |mib|)
      && (w.variable.Present? ==> w in mib && w == mib[n + r])
      && (!w.variable.Present? && n < |mib| ==> w.oid == mib[|mib| - 1].oid)
      && (!w.variable.Present? && n == |mib| ==> w.oid == q)
  {
    var n := NextFrom(mib, q, 0);
    if n + r < |mib| {
      assert mib[n + r] in mib;
    }
  }

  /** All instances from behind `q` up to one in a row are in rows before it. */
  lemma EarlierRow(mib: seq<VarBind>, q: Oid, r: nat, e: VarBind) returns (s: nat)
    requires Mib(mib) && e in mib && Less(q, e.oid)
    requires Row(mib, q, r).variable.Present? ==> !Less(Row(mib, q, r).oid, e.oid)
    ensures s <= r && Row(mib, q, s) == e
  {
    Exceptions(mib, q, r);
    var n := NextFrom(mib, q, 0);
    var j :| 0 <= j < |mib| && mib[j] == e;
    assert n <= j;
    s := j - n;
  }

  /** An instance whose identifier is in the reply is in the reply, unless it is the last one. */
  lemma NotReplaced(mib: seq<VarBind>, reqs: seq<Oid>, counts: seq<nat>, binds: seq<VarBind>, e: VarBind)
    requires Mib(mib) && SortedRows(mib, reqs, counts, binds) && e in mib && HasOid(binds, e.oid)
    requires !IsLast(mib, e) || forall w :: w in binds && w.oid == e.oid ==> w.variable.Present?
    ensures e in binds
  {
    var k :| 0 <= k < |binds| && binds[k].oid == e.oid;
    var w := binds[k];
    assert w in binds && InRow(mib, reqs, counts, w);
    var c: nat, r: nat :| c < |reqs| && r < counts[c] && w == Row(mib, reqs[c], r);
    Exceptions(mib, reqs[c], r);
    var j :| 0 <= j < |mib| && mib[j] == e;
    assert j < |mib| - 1 ==> Less(e.oid, mib[|mib| - 1].oid);
    Trichotomy(e.oid, e.oid);
    if w.variable.Present? {
      SameInstance(mib, w, e);
    }
  }

  /** What a column can do with the reply: `b` is its base and `q` what it asked behind. */
  ghost predicate InRound(mib: seq<VarBind>, oids: seq<Oid>, reqs: seq<Oid>, counts: seq<nat>, binds: seq<VarBind>,
      i: nat, res: seq<VarBind>) {
    && BulkReady(mib, oids, reqs, counts, binds) && i < |oids|
    && FoundUpTo(mib, oids[i], reqs[i], res) && !CompleteBut(mib, oids[i], res)
  }

  /** The first row of a column that is not complete is an instance below its base. */
  lemma OwnFirst(mib: seq<VarBind>, oids: seq<Oid>, reqs: seq<Oid>, counts: seq<nat>, binds: seq<VarBind>, i: nat,
      res: seq<VarBind>)
    requires InRound(mib, oids, reqs, counts, binds, i, res)
    ensures NextFrom(mib, reqs[i], 0) < |mib|
    ensures var v := Row(mib, reqs[i], 0); v in Below(binds, oids[i]) && v in mib && Less(reqs[i], v.oid)
  {
    hide SortedRows, PrefixFree, Strict;
    var b, q := oids[i], reqs[i];
    var e :| e in mib && b < e.oid && !IsLast(mib, e) && e !in res;
    var n := NextFrom(mib, q, 0);
    var v := Row(mib, q, 0);
    var j :| 0 <= j < |mib| && mib[j] == e;
    assert Less(q, e.oid) && n <= j;
    Exceptions(mib, q, 0);
    FirstCounts(mib, reqs, counts, binds, i);
    OneOf(mib, reqs, counts, binds, i, 0);
    StrictAt(mib, n, j);
    if n < j {
      Contiguous(b, q, v.oid, e.oid);
    }
    NotReplaced(mib, reqs, counts, binds, v);
  }

  lemma StrictAt(mib: seq<VarBind>, n: nat, j: nat)
    requires Strict(mib) && n <= j < |mib|
    ensures n < j ==> Less(mib[n].oid, mib[j].oid)
    ensures j < |mib| - 1 ==> !IsLast(mib, mib[n])
  {
    Trichotomy(mib[n].oid, mib[n].oid);
  }

  lemma OneOf(mib: seq<VarBind>, reqs: seq<Oid>, counts: seq<nat>, binds: seq<VarBind>, c: nat, r: nat)
    requires SortedRows(mib, reqs, counts, binds) && c < |reqs| && r < counts[c]
    ensures HasOid(binds, Row(mib, reqs[c], r).oid)
  {
  }

  lemma FirstCounts(mib: seq<VarBind>, reqs: seq<Oid>, counts: seq<nat>, binds: seq<VarBind>, c: nat)
    requires SortedRows(mib, reqs, counts, binds) && c < |reqs|
    ensures |counts| == |reqs| && counts[c] >= 1
  {
  }

  /** What another column brings in below a base follows what that column asked for. */
  lemma Follows(oids: seq<Oid>, reqs: seq<Oid>, i: nat, c: nat, x: Oid, y: Oid)
    requires PrefixFree(oids) && |reqs| == |oids| && i < |oids| && c < |oids| && c != i && oids[c] <= reqs[c]
    requires oids[i] <= x && oids[i] <= y && Less(reqs[c], x)
    ensures Less(reqs[c], y)
  {
    Apart(oids[c], oids[i], reqs[c], x, y);
  }

  /** All instances up to one that the reply holds below the base are in the reply, too. */
  lemma NoGaps(mib: seq<VarBind>, oids: seq<Oid>, reqs: seq<Oid>, counts: seq<nat>, binds: seq<VarBind>, i: nat,
      w: VarBind, e: VarBind)
    requires BulkReady(mib, oids, reqs, counts, binds) && i < |oids| && w in binds && oids[i] <= w.oid
    requires NextFrom(mib, reqs[i], 0) < |mib|
    requires e in mib && oids[i] < e.oid && Less(reqs[i], e.oid)
    requires w.variable.Present? ==> !Less(w.oid, e.oid)
    ensures HasOid(binds, e.oid)
  {
    assert InRow(mib, reqs, counts, w);
    var c: nat, r: nat :| c < |reqs| && r < counts[c] && w == Row(mib, reqs[c], r);
    Exceptions(mib, reqs[c], r);
    var n := NextFrom(mib, reqs[c], 0);
    if c != i {
      if n == |mib| {
        Elsewhere(oids, i, c, w.oid);
      }
      BehindRow(mib, reqs[c], r);
      Follows(oids, reqs, i, c, w.oid, e.oid);
    }
    var s := EarlierRow(mib, reqs[c], r, e);
    OneOf(mib, reqs, counts, binds, c, s);
  }

  lemma Elsewhere(oids: seq<Oid>, i: nat, c: nat, x: Oid)
    requires PrefixFree(oids) && i < |oids| && c < |oids| && c != i && oids[i] <= x
    ensures !(oids[c] <= x)
  {
    if oids[c] <= x {
      Comparable(oids[c], oids[i], x);
    }
  }

  lemma BehindRow(mib: seq<VarBind>, q: Oid, r: nat)
    requires Mib(mib) && NextFrom(mib, q, 0) < |mib|
    ensures Less(q, Row(mib, q, r).oid)
  {
    var n := NextFrom(mib, q, 0);
    var k := if n + r < |mib| then n + r else |mib| - 1;
    if n < k {
      Transitive(q, mib[n].oid, mib[k].oid);
    }
  }

  // ----- One column in one round -------------------------------------------------------

  lemma LastIsMost(m: seq<VarBind>, w: VarBind)
    requires Strict(m) && w in m
    ensures m != [] && m[|m| - 1] in m && !Less(m[|m| - 1].oid, w.oid)
  {
    var k :| 0 <= k < |m| && m[k] == w;
    Trichotomy(m[|m| - 1].oid, w.oid);
  }

  lemma BelowIs(mib: seq<VarBind>, reqs: seq<Oid>, counts: seq<nat>, binds: seq<VarBind>, b: Oid)
    requires Mib(mib) && SortedRows(mib, reqs, counts, binds)
    ensures Strict(Below(binds, b))
    ensures forall w :: w in binds && w.variable.Present? ==> w in mib
  {
    BelowStrict(binds, b);
    forall w | w in binds && w.variable.Present? ensures w in mib {
      assert InRow(mib, reqs, counts, w);
      var c: nat, r: nat :| c < |reqs| && r < counts[c] && w == Row(mib, reqs[c], r);
      Exceptions(mib, reqs[c], r);
    }
  }

  /** The reply brings in something new, which is the last that it holds below the base. */
  lemma BringsNew(mib: seq<VarBind>, oids: seq<Oid>, reqs: seq<Oid>, counts: seq<nat>, binds: seq<VarBind>, i: nat,
      res: seq<VarBind>)
    requires InRound(mib, oids, reqs, counts, binds, i, res)
    ensures var m := Below(binds, oids[i]);
      && m != [] && Strict(m) && Less(reqs[i], m[|m| - 1].oid) && !HasOid(res, m[|m| - 1].oid)
      && oids[i] <= m[|m| - 1].oid
  {
    hide SortedRows, PrefixFree, Strict, CompleteBut, Row, NextFrom;
    var b, q, m := oids[i], reqs[i], Below(binds, oids[i]);
    var v := Row(mib, q, 0);
    OwnFirst(mib, oids, reqs, counts, binds, i, res);
    BelowIs(mib, reqs, counts, binds, b);
    LastIsMost(m, v);
    var last := m[|m| - 1];
    Trichotomy(v.oid, last.oid);
    if Less(v.oid, last.oid) {
      Transitive(q, v.oid, last.oid);
    }
    forall k | 0 <= k < |res| ensures res[k].oid != last.oid {
      assert res[k] in res;
    }
  }

  /** If no exception came, everything up to the last that came has been found. */
  lemma GoesOn(mib: seq<VarBind>, oids: seq<Oid>, reqs: seq<Oid>, counts: seq<nat>, binds: seq<VarBind>, i: nat,
      res: seq<VarBind>)
    requires InRound(mib, oids, reqs, counts, binds, i, res) && !AnyMissing(Below(binds, oids[i]))
    ensures var m := Below(binds, oids[i]); m != [] && FoundUpTo(mib, oids[i], m[|m| - 1].oid, res + m)
  {
    hide SortedRows, PrefixFree, Strict, CompleteBut, Row, NextFrom, Mib;
    var b, q, m := oids[i], reqs[i], Below(binds, oids[i]);
    OwnFirst(mib, oids, reqs, counts, binds, i, res);
    BringsNew(mib, oids, reqs, counts, binds, i, res);
    var last := m[|m| - 1];
    AllPresent(m);
    assert last in m;
    forall e | e in mib && b < e.oid && !Less(last.oid, e.oid) ensures e in res + m {
      if Less(q, e.oid) {
        NoGaps(mib, oids, reqs, counts, binds, i, last, e);
        NotReplaced(mib, reqs, counts, binds, e);
      }
    }
    forall r | r in res + m && b <= r.oid ensures !Less(last.oid, r.oid) {
      if r in m {
        LastIsMost(m, r);
      } else if Less(last.oid, r.oid) {
        Transitive(q, last.oid, r.oid);
      }
    }
  }

  lemma AllPresent(m: seq<VarBind>)
    requires !AnyMissing(m)
    ensures forall w :: w in m ==> w.variable.Present?
    ensures Presents(m) == m
  {
    forall w | w in m ensures w.variable.Present? {
      var k :| 0 <= k < |m| && m[k] == w;
    }
  }

  /** If the reply holds all identifiers that are left below the base, the column is complete. */
  lemma AllThere(mib: seq<VarBind>, oids: seq<Oid>, reqs: seq<Oid>, counts: seq<nat>, binds: seq<VarBind>, i: nat,
      res: seq<VarBind>)
    requires InRound(mib, oids, reqs, counts, binds, i, res)
    requires forall e :: e in mib && oids[i] < e.oid && Less(reqs[i], e.oid) ==> HasOid(binds, e.oid)
    ensures CompleteBut(mib, oids[i], res + Presents(Below(binds, oids[i])))
  {
    hide SortedRows, PrefixFree, Strict, Row, NextFrom;
    forall e | e in mib && oids[i] < e.oid && !IsLast(mib, e) ensures e in res + Presents(Below(binds, oids[i])) {
      if Less(reqs[i], e.oid) {
        NotReplaced(mib, reqs, counts, binds, e);
      }
    }
  }

  /** An exception comes behind everything that is left. */
  lemma EndsThere(mib: seq<VarBind>, oids: seq<Oid>, reqs: seq<Oid>, counts: seq<nat>, binds: seq<VarBind>, i: nat,
      res: seq<VarBind>)
    requires InRound(mib, oids, reqs, counts, binds, i, res) && AnyMissing(Below(binds, oids[i]))
    ensures CompleteBut(mib, oids[i], res + Presents(Below(binds, oids[i])))
  {
    hide SortedRows, PrefixFree, Strict, CompleteBut, Row, NextFrom;
    var m := Below(binds, oids[i]);
    var k :| 0 <= k < |m| && !m[k].variable.Present?;
    assert m[k] in m;
    OwnFirst(mib, oids, reqs, counts, binds, i, res);
    forall e | e in mib && oids[i] < e.oid && Less(reqs[i], e.oid) ensures HasOid(binds, e.oid) {
      NoGaps(mib, oids, reqs, counts, binds, i, m[k], e);
    }
    AllThere(mib, oids, reqs, counts, binds, i, res);
  }

  /** As many bindings as instances in a row that they hold. */
  lemma {:induction false} AtLeast(m: seq<VarBind>, mib: seq<VarBind>, n: nat, end: nat) returns (j: int)
    requires Strict(m) && Strict(mib) && n <= end <= |mib|
    requires forall k :: n <= k < end ==> HasOid(m, mib[k].oid)
    ensures end - n - 1 <= j < |m| && (n < end ==> j >= 0 && m[j].oid == mib[end - 1].oid)
    decreases end
  {
    if n == end {
      j := -1;
    } else {
      var i := AtLeast(m, mib, n, end - 1);
      var o := mib[end - 1].oid;
      j :| 0 <= j < |m| && m[j].oid == o;
      if n < end - 1 {
        assert Less(mib[end - 2].oid, o);
        Trichotomy(m[i].oid, m[j].oid);
        assert i < j;
      }
    }
  }

  predicate Inside(mib: seq<VarBind>, b: Oid, k: nat) {
    k < |mib| && b <= mib[k].oid
  }

  /** Fewer below the base than came for the column: it has left its base. */
  lemma ShortEnds(mib: seq<VarBind>, oids: seq<Oid>, reqs: seq<Oid>, counts: seq<nat>, binds: seq<VarBind>, i: nat,
      res: seq<VarBind>)
    requires InRound(mib, oids, reqs, counts, binds, i, res) && |Below(binds, oids[i])| < counts[i]
    ensures CompleteBut(mib, oids[i], res + Presents(Below(binds, oids[i])))
  {
    hide SortedRows, PrefixFree, Strict, CompleteBut, NextFrom;
    var b, q, m, n := oids[i], reqs[i], Below(binds, oids[i]), NextFrom(mib, reqs[i], 0);
    OwnFirst(mib, oids, reqs, counts, binds, i, res);
    BelowIs(mib, reqs, counts, binds, b);
    FirstCounts(mib, reqs, counts, binds, i);
    if forall k: nat :: n <= k < n + counts[i] ==> Inside(mib, b, k) {
      assert Inside(mib, b, n + counts[i] - 1);
      forall k | n <= k < n + counts[i] ensures HasOid(m, mib[k].oid) {
        assert Inside(mib, b, k);
        OneOf(mib, reqs, counts, binds, i, k - n);
        BelowHas(binds, b, mib[k].oid);
      }
      var j := AtLeast(m, mib, n, n + counts[i]);
    } else {
      var k: nat :| n <= k < n + counts[i] && !Inside(mib, b, k);
      var r := k - n;
      forall e | e in mib && b < e.oid && Less(q, e.oid) ensures HasOid(binds, e.oid) {
        if k < |mib| && Less(mib[k].oid, e.oid) {
          BehindRow(mib, q, r);
          Contiguous(b, q, mib[k].oid, e.oid);
        }
        Exceptions(mib, q, r);
        var s := EarlierRow(mib, q, r, e);
        OneOf(mib, reqs, counts, binds, i, s);
      }
      AllThere(mib, oids, reqs, counts, binds, i, res);
    }
  }

  lemma BelowHas(binds: seq<VarBind>, b: Oid, o: Oid)
    requires HasOid(binds, o) && b <= o
    ensures HasOid(Below(binds, b), o)
  {
    var k :| 0 <= k < |binds| && binds[k].oid == o;
    assert binds[k] in Below(binds, b);
  }

  // ----- A round -----------------------------------------------------------------------

  /** A column that is complete but for the last instance stays so. */
  lemma StaysComplete(mib: seq<VarBind>, b: Oid, res: seq<VarBind>, more: seq<VarBind>)
    requires CompleteBut(mib, b, res)
    ensures CompleteBut(mib, b, res + more)
  {
  }

  /** What a column makes of the reply. */
  lemma StepBut(mib: seq<VarBind>, oids: seq<Oid>, reqs: seq<Oid>, counts: seq<nat>, binds: seq<VarBind>, i: nat,
      short: bool, res: seq<VarBind>, res': seq<VarBind>, next: Option<Oid>)
    requires BulkReady(mib, oids, reqs, counts, binds) && i < |oids| && ColumnBut(mib, oids[i], reqs[i], res)
    requires short ==> |Below(binds, oids[i])| < counts[i]
    requires ColumnResult(oids[i], binds, short, res, res', next)
    ensures AfterBut(mib, oids[i], next, res')
  {
    hide BulkReady, CompleteBut, FoundUpTo, HasOid, AnyMissing, Presents;
    var b, m := oids[i], Below(binds, oids[i]);
    if CompleteBut(mib, b, res) {
      StaysComplete(mib, b, res, Presents(m));
      if m != [] {
        assert m[|m| - 1] in m;
      }
    } else {
      BringsNew(mib, oids, reqs, counts, binds, i, res);
      if AnyMissing(m) {
        EndsThere(mib, oids, reqs, counts, binds, i, res);
      } else if short {
        ShortEnds(mib, oids, reqs, counts, binds, i, res);
      } else {
        GoesOn(mib, oids, reqs, counts, binds, i, res);
        AllPresent(m);
      }
    }
  }

  /** The columns before `i` have been walked, the others have not. */
  ghost predicate WalkedBut(mib: seq<VarBind>, oids: seq<Oid>, reqs: seq<Oid>, nexts: seq<Option<Oid>>, i: nat,
      res: seq<VarBind>)
  {
    && |reqs| == |oids| && i <= |nexts| && i <= |oids|
    && (forall k :: 0 <= k < i ==> AfterBut(mib, oids[k], nexts[k], res))
    && (forall k :: i <= k < |oids| ==> ColumnBut(mib, oids[k], reqs[k], res))
    && (forall r :: r in res ==> r in mib)
  }

  /** Growing the result below one base does not disturb the other columns. */
  lemma OtherBut(mib: seq<VarBind>, a: Oid, b: Oid, q: Oid, res: seq<VarBind>, more: seq<VarBind>)
    requires !(a <= b) && !(b <= a)
    requires forall m :: m in more ==> a <= m.oid
    ensures ColumnBut(mib, b, q, res) ==> ColumnBut(mib, b, q, res + more)
    ensures CompleteBut(mib, b, res) ==> CompleteBut(mib, b, res + more)
  {
    forall r | r in more ensures !(b <= r.oid) {
      if b <= r.oid {
        Comparable(a, b, r.oid);
      }
    }
  }

  /** What a round does with its columns, one after the other. */
  ghost predicate Walks(oids: seq<Oid>, binds: seq<VarBind>, filled: bool, most: int, trace: seq<seq<VarBind>>,
      nexts: seq<Option<Oid>>) {
    && |nexts| == |oids| && |trace| == |oids| + 1
    && forall i :: 0 <= i < |oids| ==>
         ColumnResult(oids[i], binds, filled && |Below(binds, oids[i])| < most, trace[i], trace[i + 1], nexts[i])
  }

  lemma AddsBelow(base: Oid, binds: seq<VarBind>, short: bool, res: seq<VarBind>, res': seq<VarBind>,
      next: Option<Oid>) returns (more: seq<VarBind>)
    requires ColumnResult(base, binds, short, res, res', next)
    ensures res' == res + more && forall w :: w in more ==> w in binds && w.variable.Present? && base <= w.oid
  {
    var m := Below(binds, base);
    more := if m == [] || HasOid(res, m[|m| - 1].oid) then [] else Presents(m);
  }

  lemma {:induction false} RoundBut(mib: seq<VarBind>, oids: seq<Oid>, reqs: seq<Oid>, counts: seq<nat>,
      binds: seq<VarBind>, filled: bool, most: int, trace: seq<seq<VarBind>>, nexts: seq<Option<Oid>>, i: nat)
    requires BulkReady(mib, oids, reqs, counts, binds) && Walks(oids, binds, filled, most, trace, nexts) && i <= |oids|
    requires filled ==> forall c :: 0 <= c < |counts| ==> counts[c] == most
    requires WalkedBut(mib, oids, reqs, nexts, 0, trace[0])
    ensures WalkedBut(mib, oids, reqs, nexts, i, trace[i])
    decreases i
  {
    hide BulkReady, WalkedBut, ColumnResult;
    if i > 0 {
      RoundBut(mib, oids, reqs, counts, binds, filled, most, trace, nexts, i - 1);
      NextBut(mib, oids, reqs, counts, binds, filled, most, trace, nexts, i - 1);
    }
  }

  lemma NextBut(mib: seq<VarBind>, oids: seq<Oid>, reqs: seq<Oid>, counts: seq<nat>, binds: seq<VarBind>,
      filled: bool, most: int, trace: seq<seq<VarBind>>, nexts: seq<Option<Oid>>, i: nat)
    requires BulkReady(mib, oids, reqs, counts, binds) && Walks(oids, binds, filled, most, trace, nexts) && i < |oids|
    requires filled ==> forall c :: 0 <= c < |counts| ==> counts[c] == most
    requires WalkedBut(mib, oids, reqs, nexts, i, trace[i])
    ensures WalkedBut(mib, oids, reqs, nexts, i + 1, trace[i + 1])
  {
    hide ColumnBut, CompleteBut, PrefixFree, SortedRows, Mib, ColumnResult;
    var short := filled && |Below(binds, oids[i])| < most;
    FirstCounts(mib, reqs, counts, binds, i);
    StepBut(mib, oids, reqs, counts, binds, i, short, trace[i], trace[i + 1], nexts[i]);
    var more := AddsBelow(oids[i], binds, short, trace[i], trace[i + 1], nexts[i]);
    BelowIs(mib, reqs, counts, binds, oids[i]);
    forall k | 0 <= k < |oids| && k != i
      ensures k < i ==> AfterBut(mib, oids[k], nexts[k], trace[i + 1])
      ensures k > i ==> ColumnBut(mib, oids[k], reqs[k], trace[i + 1])
    {
      Incomparable(oids, i, k);
      OtherBut(mib, oids[i], oids[k],
        if k > i then reqs[k] else if nexts[k] != None then nexts[k].value else [], trace[i], more);
    }
  }

  // ----- The walk ----------------------------------------------------------------------

  /** All active columns are on their way, all others are complete but for the last instance. */
  ghost predicate OnTheWayBut(mib: seq<VarBind>, bases: seq<Oid>, oids: seq<Oid>, reqs: seq<Oid>, res: seq<VarBind>) {
    && |reqs| == |oids|
    && (forall i :: 0 <= i < |oids| ==> ColumnBut(mib, oids[i], reqs[i], res))
    && (forall b :: b in bases && b !in oids ==> CompleteBut(mib, b, res))
    && (forall r :: r in res ==> r in mib)
  }

  lemma StartBut(mib: seq<VarBind>, bases: seq<Oid>)
    ensures OnTheWayBut(mib, bases, bases, bases, [])
  {
    forall k | 0 <= k < |bases| ensures ColumnBut(mib, bases[k], bases[k], []) {
      forall e | e in mib && bases[k] < e.oid ensures Less(bases[k], e.oid) {
        PrefixIsLess(bases[k], e.oid);
      }
    }
  }

  lemma RowsSorted(mib: seq<VarBind>, reqs: seq<Oid>, counts: seq<nat>, most: int, reply: seq<VarBind>,
      sorted: seq<VarBind>, binds: seq<VarBind>)
    requires Delivers(mib, reqs, counts, most, reply) && multiset(sorted) == multiset(reply)
    requires Strict(binds) && (forall b :: b in binds ==> b in sorted)
    requires forall o :: HasOid(binds, o) <==> HasOid(sorted, o)
    ensures SortedRows(mib, reqs, counts, binds)
  {
    hide InRow, Row;
    forall w | w in binds ensures InRow(mib, reqs, counts, w) {
      assert w in multiset(sorted);
    }
    forall c: nat, r: nat | c < |reqs| && r < counts[c] ensures HasOid(binds, Row(mib, reqs[c], r).oid) {
      var w := Row(mib, reqs[c], r);
      assert w in multiset(reply) && w in multiset(sorted);
      var k :| 0 <= k < |sorted| && sorted[k] == w;
      assert HasOid(sorted, w.oid);
    }
  }

  lemma SweptBut(mib: seq<VarBind>, bases: seq<Oid>, oids: seq<Oid>, reqs: seq<Oid>, nexts: seq<Option<Oid>>,
      before: seq<VarBind>, res: seq<VarBind>)
    requires |oids| == |nexts| && before <= res
    requires forall b :: b in bases && b !in oids ==> CompleteBut(mib, b, before)
    requires WalkedBut(mib, oids, reqs, nexts, |oids|, res)
    ensures var idx := Live(nexts, 0);
      OnTheWayBut(mib, bases, Pick(oids, idx), Values(Pick(nexts, idx)), res)
  {
    hide CompleteBut, ColumnBut, Live;
    var idx := Live(nexts, 0);
    var oids' := Pick(oids, idx);
    AllLive(nexts, 0);
    forall j | 0 <= j < |oids| && nexts[j] != None ensures oids[j] in oids' {
      var k :| 0 <= k < |idx| && idx[k] == j;
      assert oids'[k] == oids[j];
    }
    forall b | b in bases && b !in oids' ensures CompleteBut(mib, b, res) {
      if b in oids {
        var j :| 0 <= j < |oids| && oids[j] == b;
        assert AfterBut(mib, oids[j], nexts[j], res);
      } else {
        StaysComplete(mib, b, before, res[|before|..]);
        assert before + res[|before|..] == res;
      }
    }
    forall k | 0 <= k < |idx| ensures ColumnBut(mib, oids'[k], Values(Pick(nexts, idx))[k], res) {
      assert AfterBut(mib, oids[idx[k]], nexts[idx[k]], res);
    }
  }

  /** One round keeps all columns on their way. */
  lemma BulkRound(agent: Agent, mib: seq<VarBind>, bases: seq<Oid>, oids: seq<Oid>, reqs: seq<Oid>, round: nat,
      most: int, sorted: seq<VarBind>, binds: seq<VarBind>, trace: seq<seq<VarBind>>, nexts: seq<Option<Oid>>)
    requires HonestBulk(agent, mib, most) && PrefixFree(oids) && |reqs| == |oids|
    requires forall k :: 0 <= k < |oids| ==> oids[k] <= reqs[k]
    requires var reply := agent(round, reqs).binds;
      && multiset(sorted) == multiset(reply) && Strict(binds) && (forall b :: b in binds ==> b in sorted)
      && (forall o :: HasOid(binds, o) <==> HasOid(sorted, o))
      && Walks(oids, binds, |reply| == |reqs| * most, most, trace, nexts)
    requires OnTheWayBut(mib, bases, oids, reqs, trace[0]) && trace[0] <= trace[|oids|]
    ensures var idx := Live(nexts, 0);
      OnTheWayBut(mib, bases, Pick(oids, idx), Values(Pick(nexts, idx)), trace[|oids|])
  {
    hide ColumnBut, CompleteBut, PrefixFree, SortedRows, Strict, InRow, Row, HasOid, ColumnResult, Live, Pick;
    var reply := agent(round, reqs).binds;
    var counts :| Delivers(mib, reqs, counts, most, reply);
    RowsSorted(mib, reqs, counts, most, reply, sorted, binds);
    if |reply| == |reqs| * most && reqs != [] {
      AllFull(counts, most);
    }
    RoundBut(mib, oids, reqs, counts, binds, |reply| == |reqs| * most, most, trace, nexts, |oids|);
    SweptBut(mib, bases, oids, reqs, nexts, trace[0], trace[|oids|]);
  }
}
