/** Lists of variable bindings and of identifiers: sorting, removing duplicates, matching
  * (pdu.go, variables.go). */
module VarBinds {
  import opened Options
  import opened Oids

  /** The value of a binding; the three exceptions stand for values that do not exist. */
  datatype Variable = Present(content: int) | NoSuchObject | NoSuchInstance | EndOfMibView

  datatype VarBind = VarBind(oid: Oid, variable: Variable)

  predicate SortedBy<T>(v: seq<T>, key: T -> Oid) {
    forall i, j :: 0 <= i < j < |v| ==> !Less(key(v[j]), key(v[i]))
  }

  function OidOf(b: VarBind): Oid {
    b.oid
  }

  function Identity(o: Oid): Oid {
    o
  }

  /** The original sorts with a routine that may order equal keys either way; callers rely on
    * the contract only: a sorted permutation. */
  method Sort<T>(v: seq<T>, key: T -> Oid) returns (c: seq<T>)
    ensures SortedBy(c, key) && multiset(c) == multiset(v)
  {
    c := [];
    for i := 0 to |v|
      invariant SortedBy(c, key) && multiset(c) == multiset(v[..i])
    {
      assert v[..i + 1] == v[..i] + [v[i]];
      c := Insert(c, v[i], key);
    }
    assert v[..|v|] == v;
  }

  method Insert<T>(c: seq<T>, x: T, key: T -> Oid) returns (r: seq<T>)
    requires SortedBy(c, key)
    ensures SortedBy(r, key) && multiset(r) == multiset(c) + multiset{x}
  {
    var k := |c|;
    var above := true;
    while k > 0 && above
      invariant 0 <= k <= |c|
      invariant forall j :: k <= j < |c| ==> Less(key(x), key(c[j]))
      invariant !above ==> k > 0 && !Less(key(x), key(c[k - 1]))
      decreases k, above
    {
      var order := Compare(key(x), key(c[k - 1]));
      if order < 0 {
        k := k - 1;
      } else {
        Trichotomy(key(x), key(c[k - 1]));
        above := false;
      }
    }
    r := c[..k] + [x] + c[k..];
    assert c == c[..k] + c[k..];
    InsertSorted(c, x, k, key);
  }

  lemma InsertSorted<T>(c: seq<T>, x: T, k: nat, key: T -> Oid)
    requires SortedBy(c, key) && k <= |c|
    requires forall j :: k <= j < |c| ==> Less(key(x), key(c[j]))
    requires k > 0 ==> !Less(key(x), key(c[k - 1]))
    ensures SortedBy(c[..k] + [x] + c[k..], key)
  {
    var r := c[..k] + [x] + c[k..];
    forall i, j | 0 <= i < j < |r|
      ensures !Less(key(r[j]), key(r[i]))
    {
      if i < k && j == k {
        NotLessTransitive(key(x), key(c[k - 1]), key(c[i]), i == k - 1);
      } else if i == k {
        Trichotomy(key(x), key(c[j - 1]));
      } else {
        assert r[i] == c[if i < k then i else i - 1] && r[j] == c[if j < k then j else j - 1];
      }
    }
  }

  lemma NotLessTransitive(x: Oid, y: Oid, z: Oid, same: bool)
    requires !Less(x, y) && (if same then y == z else !Less(y, z))
    ensures !Less(x, z)
  {
    Trichotomy(x, y);
    Trichotomy(y, z);
    if Less(x, z) {
      if Less(z, y) {
        Transitive(x, z, y);
      }
    }
  }

  // ----- Strictly sorted lists ---------------------------------------------------------

  predicate Strict(v: seq<VarBind>) {
    forall i, j :: 0 <= i < j < |v| ==> Less(v[i].oid, v[j].oid)
  }

  predicate HasOid(v: seq<VarBind>, o: Oid) {
    exists i :: 0 <= i < |v| && v[i].oid == o
  }

  /** Keeps the first of adjacent bindings of one identifier. */
  method Uniq(v: seq<VarBind>) returns (c: seq<VarBind>)
    requires SortedBy(v, OidOf)
    ensures Strict(c)
    ensures forall b :: b in c ==> b in v
    ensures forall o :: HasOid(c, o) <==> HasOid(v, o)
  {
    var before: Option<VarBind> := None;
    c := [];
    for i := 0 to |v|
      invariant before == if c == [] then None else Some(c[|c| - 1])
      invariant Strict(c) && (i == 0 ==> c == [])
      invariant forall b :: b in c ==> b in v[..i]
      invariant forall o :: HasOid(c, o) <==> HasOid(v[..i], o)
      invariant i > 0 ==> c != [] && c[|c| - 1].oid == v[i - 1].oid
    {
      assert v[..i + 1] == v[..i] + [v[i]];
      HasOidAppend(v[..i], v[i]);
      HasOidAppend(c, v[i]);
      if before == None || before.value.oid != v[i].oid {
        AppendStrict(c, v, i);
        before := Some(v[i]);
        c := c + [v[i]];
      }
    }
    assert v[..|v|] == v;
  }

  lemma HasOidAppend(v: seq<VarBind>, b: VarBind)
    ensures forall o :: HasOid(v + [b], o) <==> HasOid(v, o) || o == b.oid
  {
    forall o
      ensures HasOid(v + [b], o) <==> HasOid(v, o) || o == b.oid
    {
      if HasOid(v, o) {
        var i :| 0 <= i < |v| && v[i].oid == o;
        assert (v + [b])[i].oid == o;
      }
      assert (v + [b])[|v|] == b;
    }
  }

  lemma AppendStrict(c: seq<VarBind>, v: seq<VarBind>, i: nat)
    requires i < |v| && SortedBy(v, OidOf) && Strict(c)
    requires i > 0 ==> c != [] && c[|c| - 1].oid == v[i - 1].oid && v[i - 1].oid != v[i].oid
    requires i == 0 ==> c == []
    ensures Strict(c + [v[i]])
  {
    if i > 0 {
      var last := c[|c| - 1].oid;
      assert !Less(OidOf(v[i]), OidOf(v[i - 1]));
      Trichotomy(last, v[i].oid);
      forall k | 0 <= k < |c| - 1
        ensures Less(c[k].oid, v[i].oid)
      {
        Transitive(c[k].oid, last, v[i].oid);
      }
    }
  }

  /** Finds the first binding of an identifier. */
  method MatchOid(v: seq<VarBind>, oid: Oid) returns (r: Option<VarBind>)
    ensures r != None <==> HasOid(v, oid)
    ensures r != None ==> r.value in v && r.value.oid == oid
  {
    for i := 0 to |v|
      invariant forall j :: 0 <= j < i ==> v[j].oid != oid
    {
      if v[i].oid == oid {
        return Some(v[i]);
      }
    }
    r := None;
  }

  function Below(v: seq<VarBind>, prefix: Oid): (r: seq<VarBind>)
    ensures forall b :: b in r <==> b in v && prefix <= b.oid
  {
    if v == [] then []
    else
      var rest := Below(v[..|v| - 1], prefix);
      assert v == v[..|v| - 1] + [v[|v| - 1]];
      if prefix <= v[|v| - 1].oid then rest + [v[|v| - 1]] else rest
  }

  /** The bindings at or below an identifier, in order. */
  method MatchBaseOids(v: seq<VarBind>, prefix: Oid) returns (r: seq<VarBind>)
    ensures r == Below(v, prefix)
  {
    r := [];
    for i := 0 to |v|
      invariant r == Below(v[..i], prefix)
    {
      assert v[..i + 1][..i] == v[..i];
      var contains := Contains(v[i].oid, prefix);
      if contains {
        r := r + [v[i]];
      }
    }
    assert v[..|v|] == v;
  }

  lemma {:induction false} BelowStrict(v: seq<VarBind>, prefix: Oid)
    requires Strict(v)
    ensures Strict(Below(v, prefix))
    decreases |v|
  {
    if v != [] {
      var rest, last := v[..|v| - 1], v[|v| - 1];
      BelowStrict(rest, prefix);
      var r := Below(rest, prefix);
      forall k | 0 <= k < |r|
        ensures Less(r[k].oid, last.oid)
      {
        assert r[k] in rest;
      }
    }
  }

  /** Two strictly sorted lists of the same bindings are equal. */
  lemma {:induction false} StrictUnique(a: seq<VarBind>, b: seq<VarBind>)
    requires Strict(a) && Strict(b)
    requires forall x :: x in a <==> x in b
    ensures a == b
    decreases |a|
  {
    if a != [] {
      assert a[0] in b;
    }
    if b != [] {
      assert b[0] in a;
      var m, n := |a| - 1, |b| - 1;
      assert a[m] in b && b[n] in a;
      var i :| 0 <= i < |b| && b[i] == a[m];
      var j :| 0 <= j < |a| && a[j] == b[n];
      Trichotomy(a[m].oid, b[n].oid);
      assert i == n && j == m;
      forall x
        ensures x in a[..m] <==> x in b[..n]
      {
        Trichotomy(a[m].oid, a[m].oid);
        assert x in a[..m] <==> x in a && x != a[m];
        assert x in b[..n] <==> x in b && x != b[n];
      }
      StrictUnique(a[..m], b[..n]);
      assert a == a[..m] + [a[m]] && b == b[..n] + [b[n]];
    }
  }
}
