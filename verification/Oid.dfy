/** Object identifiers: prefix containment and lexicographic order (variables.go). */
module Oids {
  import opened Options

  type Oid = seq<nat>

  /** Strict lexicographic order. Containment is Dafny's prefix order: `o <= v`. */
  predicate Less(a: Oid, b: Oid) {
    b != [] && (a == [] || a[0] < b[0] || (a[0] == b[0] && Less(a[1..], b[1..])))
  }

  // ----- The order ---------------------------------------------------------------------

  lemma {:induction false} Trichotomy(a: Oid, b: Oid)
    ensures Less(a, b) || a == b || Less(b, a)
    ensures !(Less(a, b) && Less(b, a)) && !Less(a, a)
    decreases |a|
  {
    if a != [] && b != [] {
      Trichotomy(a[1..], b[1..]);
      Trichotomy(a[1..], a[1..]);
      assert a == [a[0]] + a[1..] && b == [b[0]] + b[1..];
    } else if a != [] {
      Trichotomy(a[1..], a[1..]);
    }
  }

  lemma {:induction false} Transitive(a: Oid, b: Oid, c: Oid)
    requires Less(a, b) && Less(b, c)
    ensures Less(a, c)
    decreases |a|
  {
    if a != [] && a[0] == b[0] == c[0] {
      Transitive(a[1..], b[1..], c[1..]);
    }
  }

  lemma {:induction false} PrefixIsLess(b: Oid, x: Oid)
    requires b < x
    ensures Less(b, x)
    decreases |b|
  {
    if b != [] {
      assert b[0] == x[0] && b[1..] < x[1..];
      PrefixIsLess(b[1..], x[1..]);
    }
  }

  /** The identifiers below `b` are contiguous in the order. */
  lemma {:induction false} Contiguous(b: Oid, x: Oid, y: Oid, z: Oid)
    requires b <= x && b <= z && Less(x, y) && Less(y, z)
    ensures b <= y
    decreases |b|
  {
    if b != [] {
      assert x[0] == b[0] == z[0];
      Contiguous(b[1..], x[1..], y[1..], z[1..]);
      assert b == [b[0]] + b[1..] && y == [y[0]] + y[1..];
    }
  }

  /** Two disjoint subtrees lie on one side of each other. */
  lemma {:induction false} Apart(c: Oid, b: Oid, q: Oid, x: Oid, y: Oid)
    requires !(c <= b) && !(b <= c)
    requires c <= q && b <= x && b <= y && Less(q, x)
    ensures Less(q, y)
    decreases |b|
  {
    if c[0] == b[0] {
      assert c == [c[0]] + c[1..] && b == [b[0]] + b[1..];
      assert c[1..] <= q[1..] && b[1..] <= x[1..] && b[1..] <= y[1..];
      Apart(c[1..], b[1..], q[1..], x[1..], y[1..]);
    }
  }

  /** Two prefixes of one identifier are prefixes of each other. */
  lemma Comparable(a: Oid, b: Oid, x: Oid)
    requires a <= x && b <= x
    ensures a <= b || b <= a
  {
    if |a| <= |b| {
      assert a == x[..|a|] == b[..|a|];
    } else {
      assert b == x[..|b|] == a[..|b|];
    }
  }

  lemma PrefixThrough(a: Oid, b: Oid, x: Oid)
    requires a <= b && b < x
    ensures a < x
  {
    assert a == b[..|a|] == x[..|a|];
  }

  lemma {:induction false} LessAfter(p: Oid, a: Oid, b: Oid)
    ensures Less(p + a, p + b) <==> Less(a, b)
    decreases |p|
  {
    if p == [] {
      assert p + a == a && p + b == b;
    } else {
      assert (p + a)[1..] == p[1..] + a && (p + b)[1..] == p[1..] + b;
      LessAfter(p[1..], a, b);
    }
  }

  // ----- The operations ----------------------------------------------------------------

  /** Returns true if `v` contains `o`. */
  method Contains(v: Oid, o: Oid) returns (r: bool)
    ensures r <==> o <= v
  {
    if |v| < |o| {
      return false;
    }
    for i := 0 to |o|
      invariant o[..i] == v[..i]
    {
      if v[i] != o[i] {
        assert v[..|o|][i] != o[i];
        return false;
      }
    }
    assert o[..|o|] == o;
    r := true;
  }

  method Compare(v: Oid, o: Oid) returns (r: int)
    ensures r == -1 <==> Less(v, o)
    ensures r == 0 <==> v == o
    ensures r == 1 <==> Less(o, v)
    ensures -1 <= r <= 1
  {
    Trichotomy(v, o);
    for i := 0 to |v|
      invariant i <= |o| && v[..i] == o[..i]
    {
      assert v == v[..i] + v[i..] && o == o[..i] + o[i..];
      LessAfter(v[..i], v[i..], o[i..]);
      LessAfter(v[..i], o[i..], v[i..]);
      if |o| <= i || v[i] > o[i] {
        return 1;
      } else if v[i] < o[i] {
        return -1;
      }
    }
    assert v[..|v|] == v;
    if |o| == |v| {
      assert o[..|v|] == o;
      return 0;
    }
    PrefixIsLess(v, o);
    r := -1;
  }

  // ----- Lists of identifiers ----------------------------------------------------------

  predicate Sorted(os: seq<Oid>) {
    forall i, j :: 0 <= i < j < |os| ==> !Less(os[j], os[i])
  }

  /** No identifier of the list contains another one. */
  predicate PrefixFree(os: seq<Oid>) {
    forall i, j :: 0 <= i < |os| && 0 <= j < |os| && i != j ==> !(os[i] <= os[j])
  }

  /** Every element of `os` is below one of `cover`. */
  predicate Covers(cover: seq<Oid>, os: seq<Oid>) {
    forall o :: o in os ==> Covered(cover, o)
  }

  predicate Covered(cover: seq<Oid>, o: Oid) {
    exists i :: 0 <= i < |cover| && cover[i] <= o
  }

  /** Filters out the identifiers that are below the one kept before them. In a sorted list
    * this leaves a prefix-free list that covers everything. */
  method UniqBase(os: seq<Oid>) returns (c: seq<Oid>)
    requires Sorted(os)
    ensures PrefixFree(c) && Covers(c, os) && Sorted(c)
    ensures forall b :: b in c ==> b in os
  {
    hide Covers, PrefixFree, Sorted, Less;
    Nothing(os);
    var before: Option<Oid> := None;
    c := [];
    for i := 0 to |os|
      invariant before == if c == [] then None else Some(c[|c| - 1])
      invariant PrefixFree(c) && Covers(c, os[..i]) && Sorted(c)
      invariant forall b :: b in c ==> b in os[..i]
      invariant i > 0 ==> c != [] && before.value <= os[i - 1]
    {
      var skip := false;
      if before != None {
        skip := Contains(os[i], before.value);
      }
      assert os[..i + 1] == os[..i] + [os[i]];
      CoverNext(c, os, i, skip);
      if !skip {
        KeepNext(c, os, i);
        before := Some(os[i]);
        c := c + [os[i]];
      }
    }
    assert os[..|os|] == os;
  }

  lemma Nothing(os: seq<Oid>)
    ensures PrefixFree([]) && Sorted([]) && Covers([], os[..0])
  {
  }

  lemma KeepNext(c: seq<Oid>, os: seq<Oid>, i: nat)
    requires i < |os| && Sorted(os) && PrefixFree(c) && Sorted(c)
    requires forall b :: b in c ==> b in os[..i]
    requires i > 0 ==> c != [] && c[|c| - 1] <= os[i - 1] && !(c[|c| - 1] <= os[i])
    ensures PrefixFree(c + [os[i]]) && Sorted(c + [os[i]])
  {
    var o := os[i];
    forall k | 0 <= k < |c|
      ensures !(c[k] <= o) && !(o <= c[k]) && !Less(o, c[k])
    {
      assert c[k] in os[..i];
      var m :| 0 <= m < i && os[m] == c[k];
      assert !Less(o, os[m]);
      if o <= c[k] {
        if o == c[k] {
          SandwichedPrefix(c, os, i, k);
        } else {
          PrefixIsLess(o, c[k]);
        }
      } else if c[k] <= o {
        SandwichedPrefix(c, os, i, k);
      }
    }
  }

  /** If an earlier kept identifier were a prefix of the next one, so would the last kept be. */
  lemma SandwichedPrefix(c: seq<Oid>, os: seq<Oid>, i: nat, k: nat)
    requires 0 < i < |os| && Sorted(os) && PrefixFree(c) && Sorted(c) && k < |c|
    requires c[|c| - 1] <= os[i - 1] && !(c[|c| - 1] <= os[i])
    ensures !(c[k] <= os[i])
  {
    var b, last, prev, next := c[k], c[|c| - 1], os[i - 1], os[i];
    if b <= next && k < |c| - 1 {
      Trichotomy(b, last);
      assert !Less(last, b) && !(b <= last) && !(last <= b);
      // prev is below last, so it is not below b; but it lies between b and next
      Apart(b, last, b, last, prev);
      Trichotomy(prev, next);
      assert !Less(next, prev) && prev != next;
      Contiguous(b, b, prev, next);
      Comparable(b, last, prev);
    }
  }

  lemma CoverNext(c: seq<Oid>, os: seq<Oid>, i: nat, skip: bool)
    requires i < |os| && Covers(c, os[..i])
    requires skip ==> c != [] && c[|c| - 1] <= os[i]
    ensures Covers(if skip then c else c + [os[i]], os[..i + 1])
  {
    var c' := if skip then c else c + [os[i]];
    forall o | o in os[..i + 1]
      ensures Covered(c', o)
    {
      if o in os[..i] {
        var k :| 0 <= k < |c| && c[k] <= o;
        assert c'[k] <= o;
      } else {
        assert o == os[i] && c'[|c'| - 1] <= o;
      }
    }
  }
}
