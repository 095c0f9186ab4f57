/** The child lists of HTML nodes (x/net/html/node.go).
  *
  * The five pointers of every node are kept up to date in place. `Linked` ties them to one
  * sequence of children per node, and fixes all of them; every operation is proved against an
  * insertion, a removal or a concatenation of such sequences. */
module HtmlNode {
  datatype Links = Links(parent: Node?, first: Node?, last: Node?, prev: Node?, next: Node?)

  const DETACHED := Links(null, null, null, null, null)

  type World = map<Node, Links>

  type Lists = map<Node, seq<Node>>

  ghost function LinksOf(n: Node): Links
    reads n
  {
    Links(n.parent, n.firstChild, n.lastChild, n.prevSibling, n.nextSibling)
  }

  ghost function Snap(all: set<Node>): World
    reads all
  {
    map n | n in all :: LinksOf(n)
  }

  // ----- The operations ----------------------------------------------------------------

  class Node {
    var parent: Node?
    var firstChild: Node?
    var lastChild: Node?
    var prevSibling: Node?
    var nextSibling: Node?

    constructor ()
      ensures LinksOf(this) == DETACHED
    {
      parent, firstChild, lastChild, prevSibling, nextSibling := null, null, null, null, null;
    }

    /** Puts a detached node before the child `oldChild`, or last; fails for an attached one. */
    method InsertBefore(newChild: Node, oldChild: Node?, ghost all: set<Node>, ghost lists: Lists) returns (ok: bool)
      requires Linked(Snap(all), lists) && {this, newChild} <= all && (oldChild != null ==> oldChild in all)
      modifies all
      ensures ok == (old(newChild.parent) == null)
      ensures !ok ==> Snap(all) == old(Snap(all))
      ensures ok ==> Snap(all) == Spliced(old(Snap(all)), this, newChild,
                                          old(if oldChild == null then lastChild else oldChild.prevSibling), oldChild)
      ensures ok && (oldChild == null || old(oldChild.parent) == this) ==>
        Linked(Snap(all), lists[this := Insert(lists[this], Place(lists[this], oldChild), newChild)])
      ensures ok && Forest(old(Snap(all))) ==> (Forest(Snap(all)) <==> !Under(old(Snap(all)), this, newChild))
    {
      ghost var w := Snap(all);
      hide Linked, Spliced, Insert, Place, Forest, Under;
      LinkedKeys(w, lists);
      ClosedAt(w, lists, this);
      ClosedAt(w, lists, newChild);
      if newChild.parent != null || newChild.prevSibling != null || newChild.nextSibling != null {
        return false;
      }
      var prev: Node?, next: Node? := null, null;
      if oldChild != null {
        ClosedAt(w, lists, oldChild);
        prev, next := oldChild.prevSibling, oldChild;
      } else {
        prev := lastChild;
      }
      Splice(newChild, prev, next, all);
      if oldChild == null || w[oldChild].parent == this {
        InsertPlace(w, lists, this, newChild, oldChild);
      }
      if Forest(w) {
        InsertForest(w, this, newChild, prev, next);
      }
      ok := true;
    }

    /** The pointer updates of an insertion. */
    method Splice(c: Node, prev: Node?, next: Node?, ghost all: set<Node>)
      requires {this, c} <= all && (prev != null ==> prev in all && prev != c) && (next != null ==> next in all)
      modifies all
      ensures Snap(all) == Spliced(old(Snap(all)), this, c, prev, next)
    {
      if prev != null {
        prev.nextSibling := c;
      } else {
        firstChild := c;
      }
      if next != null {
        next.prevSibling := c;
      } else {
        lastChild := c;
      }
      c.parent := this;
      c.prevSibling := prev;
      c.nextSibling := next;
    }

    /** Puts a detached node last; fails for an attached one. */
    method AppendChild(c: Node, ghost all: set<Node>, ghost lists: Lists) returns (ok: bool)
      requires Linked(Snap(all), lists) && {this, c} <= all
      modifies all
      ensures ok == (old(c.parent) == null)
      ensures !ok ==> Snap(all) == old(Snap(all))
      ensures ok ==> Linked(Snap(all), lists[this := lists[this] + [c]])
      ensures ok && Forest(old(Snap(all))) ==> (Forest(Snap(all)) <==> !Under(old(Snap(all)), this, c))
    {
      ghost var w := Snap(all);
      hide Linked, Spliced, Insert, Place, Forest, Under;
      LinkedKeys(w, lists);
      ClosedAt(w, lists, this);
      ClosedAt(w, lists, c);
      if c.parent != null || c.prevSibling != null || c.nextSibling != null {
        return false;
      }
      ghost var last := lastChild;
      Attach(c, all);
      InsertPlace(w, lists, this, c, null);
      InsertLast(lists[this], c);
      if Forest(w) {
        InsertForest(w, this, c, last, null);
      }
      ok := true;
    }

    /** The pointer updates of an insertion at the end. */
    method Attach(c: Node, ghost all: set<Node>)
      requires {this, c} <= all && c.nextSibling == null && (lastChild != null ==> lastChild in all && lastChild != c)
      modifies all
      ensures Snap(all) == Spliced(old(Snap(all)), this, c, old(lastChild), null)
    {
      var last := lastChild;
      if last != null {
        last.nextSibling := c;
      } else {
        firstChild := c;
      }
      lastChild := c;
      c.parent := this;
      c.prevSibling := last;
    }

    /** Takes out a child; fails for a node that is not one. */
    method RemoveChild(c: Node, ghost all: set<Node>, ghost lists: Lists) returns (ok: bool)
      requires Linked(Snap(all), lists) && {this, c} <= all
      modifies all
      ensures ok == (old(c.parent) == this)
      ensures !ok ==> Snap(all) == old(Snap(all))
      ensures ok ==> c in lists[this] && Linked(Snap(all), lists[this := Drop(lists[this], Place(lists[this], c))])
      ensures ok ==> c.parent == null
      ensures Forest(old(Snap(all))) ==> Forest(Snap(all))
    {
      ghost var w := Snap(all);
      hide Linked, Removed, Drop, Place, Forest;
      LinkedKeys(w, lists);
      ClosedAt(w, lists, this);
      ClosedAt(w, lists, c);
      if c.parent != this {
        return false;
      }
      TakeOut(c, all);
      ChildInList(w, lists, this, c);
      RemoveLinks(w, lists, this, c, Place(lists[this], c));
      if Forest(w) {
        RemoveForest(w, this, c);
      }
      ok := true;
    }

    /** What comes after `c` points past it. */
    method PassForward(c: Node, ghost all: set<Node>)
      requires {this, c} <= all && (c.nextSibling != null ==> c.nextSibling in all && c.nextSibling != c)
      modifies all
      ensures Snap(all) == Forward(old(Snap(all)), this, c)
    {
      if firstChild == c {
        firstChild := c.nextSibling;
      }
      if c.nextSibling != null {
        c.nextSibling.prevSibling := c.prevSibling;
      }
    }

    /** What comes before `c` points past it. */
    method PassBackward(c: Node, ghost all: set<Node>)
      requires {this, c} <= all && (c.prevSibling != null ==> c.prevSibling in all && c.prevSibling != c)
      modifies all
      ensures Snap(all) == Backward(old(Snap(all)), this, c)
    {
      if lastChild == c {
        lastChild := c.prevSibling;
      }
      if c.prevSibling != null {
        c.prevSibling.nextSibling := c.nextSibling;
      }
    }

    /** The pointer updates of a removal. */
    method TakeOut(c: Node, ghost all: set<Node>)
      requires {this, c} <= all && (c.nextSibling != null ==> c.nextSibling in all && c.nextSibling != c)
      requires c.prevSibling != null ==> c.prevSibling in all && c.prevSibling != c
      modifies all
      ensures Snap(all) == Removed(old(Snap(all)), this, c) && c.parent == null
    {
      hide Forward, Backward;
      ghost var w := Snap(all);
      ForwardKeeps(w, this, c);
      PassForward(c, all);
      assert Snap(all)[c] == LinksOf(c);
      PassBackward(c, all);
      c.Detach(all);
    }

    method Detach(ghost all: set<Node>)
      requires this in all
      modifies this
      ensures Snap(all) == old(Snap(all))[this := old(LinksOf(this)).(parent := null, prev := null, next := null)]
      ensures parent == null
    {
      parent := null;
      prevSibling := null;
      nextSibling := null;
    }
  }

  /** The lists when `k` children of `src` have been moved. */
  ghost function Moved(lists: Lists, dst: Node, src: Node, k: nat): Lists
    requires dst in lists && src in lists && k <= |lists[src]|
  {
    lists[dst := lists[dst] + lists[src][..k]][src := lists[src][k..]]
  }

  lemma MoveNone(lists: Lists, dst: Node, src: Node)
    requires dst in lists && src in lists && dst != src
    ensures Moved(lists, dst, src, 0) == lists
  {
    assert lists[src][0..] == lists[src] && lists[dst] + [] == lists[dst];
  }

  lemma MoveOne(lists: Lists, dst: Node, src: Node, k: nat)
    requires dst in lists && src in lists && dst != src && k <= |lists[src]|
    ensures Moved(lists, dst, src, k)[src] == lists[src][k..]
    ensures k < |lists[src]| ==>
      (var now := Moved(lists, dst, src, k);
       Moved(lists, dst, src, k + 1) == now[src := now[src][1..]][dst := now[dst] + [now[src][0]]])
  {
    if k < |lists[src]| {
      assert lists[dst] + lists[src][..k + 1] == lists[dst] + lists[src][..k] + [lists[src][k]];
      assert lists[src][k..][1..] == lists[src][k + 1..];
    }
  }

  lemma MoveAll(lists: Lists, dst: Node, src: Node)
    requires dst in lists && src in lists
    ensures Moved(lists, dst, src, |lists[src]|) == lists[dst := lists[dst] + lists[src]][src := []]
  {
    assert lists[src][..|lists[src]|] == lists[src] && lists[src][|lists[src]|..] == [];
  }

  /** Moves all children of `src` to the end of those of `dst`. */
  method ReparentChildren(dst: Node, src: Node, ghost all: set<Node>, ghost lists: Lists)
    requires Linked(Snap(all), lists) && {dst, src} <= all && dst != src
    modifies all
    ensures Linked(Snap(all), lists[dst := lists[dst] + lists[src]][src := []])
    ensures Forest(old(Snap(all))) ==> (Forest(Snap(all)) <==> !Under(old(Snap(all)), dst, src))
  {
    hide Linked, Forest, Under, Moved;
    ghost var w := Snap(all);
    LinkedKeys(w, lists);
    ghost var k := 0;
    MoveNone(lists, dst, src);
    while true
      invariant k <= |lists[src]| && Linked(Snap(all), Moved(lists, dst, src, k))
      decreases |lists[src]| - k
    {
      ghost var now := Moved(lists, dst, src, k);
      LinkedKeys(Snap(all), now);
      FirstInList(Snap(all), now, src);
      MoveOne(lists, dst, src, k);
      if src.firstChild == null {
        break;
      }
      var child: Node := src.firstChild;
      var removed := src.RemoveChild(child, all, now);
      PlaceFirst(now[src], child);
      var appended := dst.AppendChild(child, all, now[src := now[src][1..]]);
      k := k + 1;
    }
    MoveAll(lists, dst, src);
    if Forest(w) {
      ReparentForest(w, Snap(all), lists, dst, src);
    }
  }

  // ----- Pointers and sequences --------------------------------------------------------

  function At(s: seq<Node>, i: int): Node? {
    if 0 <= i < |s| then s[i] else null
  }

  ghost predicate Distinct(s: seq<Node>) {
    forall i, j :: 0 <= i < j < |s| ==> s[i] != s[j]
  }

  ghost predicate Member(w: World, n: Node, s: seq<Node>, i: nat)
    requires i < |s|
  {
    s[i] in w && w[s[i]].parent == n && w[s[i]].prev == At(s, i - 1) && w[s[i]].next == At(s, i + 1)
  }

  /** The pointers of `n` and of its children spell the sequence `s`. */
  ghost predicate ListOf(w: World, n: Node, s: seq<Node>)
    requires n in w
  {
    && Distinct(s)
    && w[n].first == At(s, 0) && w[n].last == At(s, |s| - 1)
    && forall i :: 0 <= i < |s| ==> Member(w, n, s, i)
  }

  /** A node with a parent is in its list; one without has no siblings. */
  ghost predicate Homed(w: World, lists: Lists, c: Node)
    requires c in w
  {
    if w[c].parent == null then w[c].prev == null && w[c].next == null
    else w[c].parent in lists && c in lists[w[c].parent]
  }

  ghost predicate Linked(w: World, lists: Lists) {
    w.Keys == lists.Keys && (forall n :: n in w ==> ListOf(w, n, lists[n])) &&
        (forall c :: c in w ==> Homed(w, lists, c))
  }

  /** The lists fix every pointer. */
  lemma ListsFixPointers(w: World, v: World, lists: Lists)
    requires Linked(w, lists) && Linked(v, lists)
    ensures w == v
  {
    forall n | n in w ensures w[n] == v[n] {
      SamePlace(w, v, lists, n);
      SamePlace(v, w, lists, n);
    }
  }

  lemma SamePlace(w: World, v: World, lists: Lists, n: Node)
    requires Linked(w, lists) && Linked(v, lists) && n in w
    ensures w[n].first == v[n].first && w[n].last == v[n].last
    ensures w[n].parent != null ==> v[n].parent == w[n].parent && v[n].prev == w[n].prev && v[n].next == w[n].next
  {
    assert ListOf(w, n, lists[n]) && ListOf(v, n, lists[n]);
    var p := w[n].parent;
    if p != null {
      assert Homed(w, lists, n);
      assert ListOf(w, p, lists[p]) && ListOf(v, p, lists[p]);
      var i :| 0 <= i < |lists[p]| && lists[p][i] == n;
      assert Member(w, p, lists[p], i) && Member(v, p, lists[p], i);
    }
  }

  lemma Inside(w: World, n: Node, s: seq<Node>, i: int)
    requires n in w && ListOf(w, n, s)
    ensures At(s, i) != null ==> At(s, i) in w && w[At(s, i)].parent == n
  {
    if 0 <= i < |s| {
      assert Member(w, n, s, i);
    }
  }

  // ----- Insertion ---------------------------------------------------------------------

  /** `c` is put between `prev` and `next` below `n`. */
  ghost function Spliced(w: World, n: Node, c: Node, prev: Node?, next: Node?): World
  {
    map m | m in w ::
      Links(if m == c then n else w[m].parent,
            if m == n && prev == null then c else w[m].first,
            if m == n && next == null then c else w[m].last,
            if m == c then prev else if m == next then c else w[m].prev,
            if m == c then next else if m == prev then c else w[m].next)
  }

  function Insert(s: seq<Node>, i: nat, c: Node): seq<Node>
    requires i <= |s|
  {
    s[..i] + [c] + s[i..]
  }

  lemma LinkedAt(w: World, lists: Lists, n: Node)
    requires Linked(w, lists) && n in w
    ensures n in lists && ListOf(w, n, lists[n]) && Homed(w, lists, n)
  {
  }

  lemma AllLinked(w: World, lists: Lists)
    requires w.Keys == lists.Keys
    requires forall n :: n in w ==> ListOf(w, n, lists[n])
    requires forall n :: n in w ==> Homed(w, lists, n)
    ensures Linked(w, lists)
  {
  }

  lemma InsertLinks(w: World, lists: Lists, n: Node, c: Node, i: nat)
    requires Linked(w, lists) && n in w && c in w && w[c].parent == null && i <= |lists[n]|
    ensures Linked(Spliced(w, n, c, At(lists[n], i - 1), At(lists[n], i)), lists[n := Insert(lists[n], i, c)])
  {
    hide Linked, ListOf, Homed, Insert, Spliced;
    LinkedKeys(w, lists);
    var s := lists[n];
    var v := Spliced(w, n, c, At(s, i - 1), At(s, i));
    var next := lists[n := Insert(s, i, c)];
    SplicedKeys(w, n, c, At(s, i - 1), At(s, i));
    LinkedAt(w, lists, n);
    InsertHere(w, n, c, s, i);
    forall m | m in w ensures ListOf(v, m, next[m]) {
      if m != n {
        LinkedAt(w, lists, m);
        InsertElsewhere(w, n, c, s, i, m, lists[m]);
      }
    }
    forall m | m in w ensures Homed(v, next, m) {
      LinkedAt(w, lists, m);
      InsertHomed(w, lists, n, c, i, m);
    }
    AllLinked(v, next);
  }

  lemma LinkedKeys(w: World, lists: Lists)
    requires Linked(w, lists)
    ensures w.Keys == lists.Keys
  {
  }

  lemma SplicedKeys(w: World, n: Node, c: Node, prev: Node?, next: Node?)
    ensures Spliced(w, n, c, prev, next).Keys == w.Keys
  {
  }

  /** An element of the longer sequence and its neighbours. */
  lemma InsertAt(s: seq<Node>, i: nat, c: Node, j: nat)
    requires i <= |s| && j <= |s|
    ensures |Insert(s, i, c)| == |s| + 1
    ensures Insert(s, i, c)[j] == if j < i then s[j] else if j == i then c else s[j - 1]
    ensures At(Insert(s, i, c), j - 1) == if j <= i then At(s, j - 1) else if j == i + 1 then c else At(s, j - 2)
    ensures At(Insert(s, i, c), j + 1) == if j + 1 < i then At(s, j + 1) else if j + 1 == i then c else At(s, j)
  {
  }

  lemma InsertDistinct(s: seq<Node>, i: nat, c: Node)
    requires i <= |s| && Distinct(s) && c !in s
    ensures Distinct(Insert(s, i, c))
  {
    var t := Insert(s, i, c);
    forall j, k | 0 <= j < k < |t| ensures t[j] != t[k] {
      InsertAt(s, i, c, j);
      InsertAt(s, i, c, k);
    }
  }

  lemma InsertHere(w: World, n: Node, c: Node, s: seq<Node>, i: nat)
    requires n in w && c in w && ListOf(w, n, s) && w[c].parent == null && i <= |s|
    ensures ListOf(Spliced(w, n, c, At(s, i - 1), At(s, i)), n, Insert(s, i, c))
  {
    hide Insert, Distinct, Spliced, At, Member;
    var v := Spliced(w, n, c, At(s, i - 1), At(s, i));
    NotMember(w, n, c, s);
    InsertDistinct(s, i, c);
    SplicedKeys(w, n, c, At(s, i - 1), At(s, i));
    SplicedEnds(w, n, c, s, i);
    forall j | 0 <= j < |Insert(s, i, c)| ensures Member(v, n, Insert(s, i, c), j) {
      InsertAt(s, i, c, 0);
      SplicedMember(w, n, c, s, i, j);
    }
  }

  lemma NotMember(w: World, n: Node, c: Node, s: seq<Node>)
    requires n in w && c in w && ListOf(w, n, s) && w[c].parent != n
    ensures c !in s
  {
    forall j | 0 <= j < |s| ensures s[j] != c {
      assert Member(w, n, s, j);
    }
  }

  lemma SplicedEnds(w: World, n: Node, c: Node, s: seq<Node>, i: nat)
    requires n in w && c in w && w[n].first == At(s, 0) && w[n].last == At(s, |s| - 1) && i <= |s|
    ensures n in Spliced(w, n, c, At(s, i - 1), At(s, i))
    ensures Spliced(w, n, c, At(s, i - 1), At(s, i))[n].first == At(Insert(s, i, c), 0)
    ensures Spliced(w, n, c, At(s, i - 1), At(s, i))[n].last == At(Insert(s, i, c), |Insert(s, i, c)| - 1)
  {
    hide Insert;
    InsertAt(s, i, c, 0);
    InsertAt(s, i, c, |s|);
  }

  lemma SplicedMember(w: World, n: Node, c: Node, s: seq<Node>, i: nat, j: nat)
    requires n in w && c in w && ListOf(w, n, s) && w[c].parent == null && i <= |s| && j < |Insert(s, i, c)|
    ensures Member(Spliced(w, n, c, At(s, i - 1), At(s, i)), n, Insert(s, i, c), j)
  {
    hide Insert;
    InsertAt(s, i, c, 0);
    InsertAt(s, i, c, j);
    NotMember(w, n, c, s);
    if j != i {
      var k := if j < i then j else j - 1;
      assert Member(w, n, s, k);
      assert k != i && i < |s| ==> s[k] != s[i];
      assert k + 1 != i && 0 < i ==> s[k] != s[i - 1];
    }
  }

  lemma InsertElsewhere(w: World, n: Node, c: Node, s: seq<Node>, i: nat, m: Node, l: seq<Node>)
    requires {n, c, m} <= w.Keys && ListOf(w, n, s) && w[c].parent == null && i <= |s| && m != n && ListOf(w, m, l)
    ensures ListOf(Spliced(w, n, c, At(s, i - 1), At(s, i)), m, l)
  {
    Inside(w, n, s, i - 1);
    Inside(w, n, s, i);
    var v := Spliced(w, n, c, At(s, i - 1), At(s, i));
    forall j | 0 <= j < |l| ensures Member(v, m, l, j) {
      assert Member(w, m, l, j);
    }
  }

  lemma InsertHomed(w: World, lists: Lists, n: Node, c: Node, i: nat, m: Node)
    requires {n, c, m} <= w.Keys && w.Keys == lists.Keys && ListOf(w, n, lists[n]) && w[c].parent == null &&
      i <= |lists[n]|
    requires Homed(w, lists, m)
    ensures Homed(Spliced(w, n, c, At(lists[n], i - 1), At(lists[n], i)), lists[n := Insert(lists[n], i, c)], m)
  {
    var s := lists[n];
    Inside(w, n, s, i - 1);
    Inside(w, n, s, i);
    assert c in Insert(s, i, c) by {
      assert Insert(s, i, c)[i] == c;
    }
    if m in s {
      StillIn(s, i, c, m);
    }
  }

  lemma StillIn(s: seq<Node>, i: nat, c: Node, m: Node)
    requires i <= |s| && m in s
    ensures m in Insert(s, i, c)
  {
    var j :| 0 <= j < |s| && s[j] == m;
    assert Insert(s, i, c)[if j < i then j else j + 1] == m;
  }

  /** Where a node goes that is put before `x`, or last if there is none. */
  ghost function Place(s: seq<Node>, x: Node?): (i: nat)
    ensures i <= |s|
    ensures if x != null && x in s then i < |s| && s[i] == x else i == |s|
  {
    if s == [] || s[0] == x then 0 else 1 + Place(s[1..], x)
  }

  lemma InsertPlace(w: World, lists: Lists, n: Node, c: Node, x: Node?)
    requires Linked(w, lists) && n in w && c in w && w[c].parent == null
    requires x != null ==> x in w && w[x].parent == n
    ensures Linked(Spliced(w, n, c, if x == null then w[n].last else w[x].prev, x),
                   lists[n := Insert(lists[n], Place(lists[n], x), c)])
  {
    hide Spliced, Insert;
    var s := lists[n];
    var i := Place(s, x);
    assert ListOf(w, n, s);
    if x != null {
      assert Homed(w, lists, x);
      assert Member(w, n, s, i);
    }
    InsertLinks(w, lists, n, c, i);
  }

  lemma InsertLast(s: seq<Node>, c: Node)
    ensures Insert(s, Place(s, null), c) == s + [c]
  {
    assert s[..|s|] == s && s[|s|..] == [];
  }

  lemma ChildInList(w: World, lists: Lists, n: Node, c: Node)
    requires Linked(w, lists) && c in w && w[c].parent == n
    ensures n in w && c in lists[n]
  {
    assert Homed(w, lists, c);
  }

  lemma FirstInList(w: World, lists: Lists, n: Node)
    requires Linked(w, lists) && n in w
    ensures n in lists && w[n].first == At(lists[n], 0)
    ensures lists[n] != [] ==> lists[n][0] in w && w[lists[n][0]].parent == n
  {
    assert ListOf(w, n, lists[n]);
    Inside(w, n, lists[n], 0);
  }

  lemma PlaceFirst(s: seq<Node>, c: Node)
    requires s != [] && s[0] == c
    ensures Drop(s, Place(s, c)) == s[1..]
  {
  }

  /** An insertion before a node that is not a child leaves pointers that spell no lists. */
  lemma Misplaced(w: World, lists: Lists, n: Node, c: Node, x: Node, after: Lists)
    requires Linked(w, lists) && {n, c, x} <= w.Keys && w[c].parent == null && w[x].parent != n
    ensures !Linked(Spliced(w, n, c, w[x].prev, x), after)
  {
    var v := Spliced(w, n, c, w[x].prev, x);
    if Linked(v, after) {
      assert Homed(v, after, c);
      var t := after[n];
      var i :| 0 <= i < |t| && t[i] == c;
      assert ListOf(v, n, t) && Member(v, n, t, i);
      assert i + 1 < |t| && t[i] != t[i + 1];
      Inside(v, n, t, i + 1);
    }
  }

  /** What the methods need to know about a node. */
  lemma ClosedAt(w: World, lists: Lists, n: Node)
    requires Linked(w, lists) && n in w
    ensures n in lists && (w[n].parent == null ==> w[n].prev == null && w[n].next == null)
    ensures w[n].parent != null ==> w[n].parent in w
    ensures w[n].first != null ==> w[n].first in w && w[w[n].first].parent == n
    ensures w[n].last != null ==> w[n].last in w && w[w[n].last].parent == n
    ensures w[n].prev != null ==> w[n].prev in w && w[w[n].prev].parent == w[n].parent && w[n].prev != n
    ensures w[n].next != null ==> w[n].next in w && w[w[n].next].parent == w[n].parent && w[n].next != n
    ensures w[n].prev != null ==> w[n].prev != w[n].next
  {
    var s := lists[n];
    assert ListOf(w, n, s) && Homed(w, lists, n);
    Inside(w, n, s, 0);
    Inside(w, n, s, |s| - 1);
    var p := w[n].parent;
    if p != null {
      var t := lists[p];
      var i :| 0 <= i < |t| && t[i] == n;
      assert ListOf(w, p, t) && Member(w, p, t, i);
      Inside(w, p, t, i - 1);
      Inside(w, p, t, i + 1);
    }
  }

  // ----- Removal -----------------------------------------------------------------------

  ghost function Forward(w: World, n: Node, c: Node): World
    requires c in w
  {
    map m | m in w :: w[m].(first := if m == n && w[m].first == c then w[c].next else w[m].first,
                            prev := if m == w[c].next then w[c].prev else w[m].prev)
  }

  lemma ForwardKeeps(w: World, n: Node, c: Node)
    requires c in w && w[c].next != c
    ensures c in Forward(w, n, c) && Forward(w, n, c)[c].prev == w[c].prev
  {
  }

  ghost function Backward(w: World, n: Node, c: Node): World
    requires c in w
  {
    map m | m in w :: w[m].(last := if m == n && w[m].last == c then w[c].prev else w[m].last,
                            next := if m == w[c].prev then w[c].next else w[m].next)
  }

  /** `c` is taken out from between its siblings below `n`. */
  ghost function Removed(w: World, n: Node, c: Node): World
    requires c in w
  {
    var v := Backward(Forward(w, n, c), n, c);
    v[c := v[c].(parent := null, prev := null, next := null)]
  }

  function Drop(s: seq<Node>, i: nat): seq<Node>
    requires i < |s|
  {
    s[..i] + s[i + 1..]
  }

  lemma RemoveLinks(w: World, lists: Lists, n: Node, c: Node, i: nat)
    requires Linked(w, lists) && n in w && c in w && i < |lists[n]| && lists[n][i] == c
    ensures Linked(Removed(w, n, c), lists[n := Drop(lists[n], i)])
  {
    hide Linked, ListOf, Homed, Drop, Removed;
    LinkedKeys(w, lists);
    var s := lists[n];
    var v := Removed(w, n, c);
    var next := lists[n := Drop(s, i)];
    RemovedKeys(w, n, c);
    LinkedAt(w, lists, n);
    RemoveHere(w, n, c, s, i);
    forall m | m in w ensures ListOf(v, m, next[m]) {
      if m != n {
        LinkedAt(w, lists, m);
        RemoveElsewhere(w, n, c, s, i, m, lists[m]);
      }
    }
    forall m | m in w ensures Homed(v, next, m) {
      LinkedAt(w, lists, m);
      RemoveHomed(w, lists, n, c, i, m);
    }
    AllLinked(v, next);
  }

  lemma RemovedKeys(w: World, n: Node, c: Node)
    requires c in w
    ensures Removed(w, n, c).Keys == w.Keys
  {
  }

  /** An element of the shorter sequence and its neighbours. */
  lemma DropAt(s: seq<Node>, i: nat, j: nat)
    requires i < |s| && j < |s| - 1
    ensures |Drop(s, i)| == |s| - 1
    ensures Drop(s, i)[j] == if j < i then s[j] else s[j + 1]
    ensures At(Drop(s, i), j - 1) == if j <= i then At(s, j - 1) else At(s, j)
    ensures At(Drop(s, i), j + 1) == if j + 1 < i then At(s, j + 1) else At(s, j + 2)
  {
  }

  lemma DropDistinct(s: seq<Node>, i: nat)
    requires i < |s| && Distinct(s)
    ensures Distinct(Drop(s, i))
  {
    var t := Drop(s, i);
    forall j, k | 0 <= j < k < |t| ensures t[j] != t[k] {
      DropAt(s, i, j);
      DropAt(s, i, k);
    }
  }

  lemma RemoveHere(w: World, n: Node, c: Node, s: seq<Node>, i: nat)
    requires n in w && c in w && ListOf(w, n, s) && i < |s| && s[i] == c
    ensures n in Removed(w, n, c) && ListOf(Removed(w, n, c), n, Drop(s, i))
  {
    hide Drop, Distinct, Removed, At, Member;
    DropDistinct(s, i);
    RemovedKeys(w, n, c);
    RemovedEnds(w, n, c, s, i);
    forall j | 0 <= j < |Drop(s, i)| ensures Member(Removed(w, n, c), n, Drop(s, i), j) {
      RemovedMember(w, n, c, s, i, j);
    }
  }

  lemma RemovedEnds(w: World, n: Node, c: Node, s: seq<Node>, i: nat)
    requires n in w && c in w && ListOf(w, n, s) && i < |s| && s[i] == c
    ensures n in Removed(w, n, c)
    ensures Removed(w, n, c)[n].first == At(Drop(s, i), 0)
    ensures Removed(w, n, c)[n].last == At(Drop(s, i), |Drop(s, i)| - 1)
  {
    assert Member(w, n, s, i);
    assert 0 < i ==> s[0] != s[i];
    assert i < |s| - 1 ==> s[i] != s[|s| - 1];
  }

  lemma RemovedMember(w: World, n: Node, c: Node, s: seq<Node>, i: nat, j: nat)
    requires n in w && c in w && ListOf(w, n, s) && i < |s| && s[i] == c && j < |Drop(s, i)|
    ensures Member(Removed(w, n, c), n, Drop(s, i), j)
  {
    hide Drop;
    DropLength(s, i);
    DropAt(s, i, j);
    var k := if j < i then j else j + 1;
    assert Member(w, n, s, i) && Member(w, n, s, k);
    assert k != i + 1 && i + 1 < |s| ==> s[k] != s[i + 1];
    assert k + 1 != i && 0 < i ==> s[k] != s[i - 1];
  }

  lemma DropLength(s: seq<Node>, i: nat)
    requires i < |s|
    ensures |Drop(s, i)| == |s| - 1
  {
  }

  lemma RemoveElsewhere(w: World, n: Node, c: Node, s: seq<Node>, i: nat, m: Node, l: seq<Node>)
    requires {n, c, m} <= w.Keys && ListOf(w, n, s) && i < |s| && s[i] == c && m != n && ListOf(w, m, l)
    ensures ListOf(Removed(w, n, c), m, l)
  {
    Inside(w, n, s, i - 1);
    Inside(w, n, s, i + 1);
    assert Member(w, n, s, i);
    var v := Removed(w, n, c);
    forall j | 0 <= j < |l| ensures Member(v, m, l, j) {
      assert Member(w, m, l, j);
    }
  }

  lemma RemoveHomed(w: World, lists: Lists, n: Node, c: Node, i: nat, m: Node)
    requires {n, c, m} <= w.Keys && w.Keys == lists.Keys && ListOf(w, n, lists[n]) && i < |lists[n]| && lists[n][i] == c
    requires Homed(w, lists, m)
    ensures Homed(Removed(w, n, c), lists[n := Drop(lists[n], i)], m)
  {
    var s := lists[n];
    Inside(w, n, s, i - 1);
    Inside(w, n, s, i + 1);
    assert Member(w, n, s, i);
    if m in s && m != c {
      OthersStay(s, i, m);
    }
  }

  lemma OthersStay(s: seq<Node>, i: nat, m: Node)
    requires i < |s| && m in s && s[i] != m
    ensures m in Drop(s, i)
  {
    var j :| 0 <= j < |s| && s[j] == m;
    assert Drop(s, i)[if j < i then j else j - 1] == m;
  }

  // ----- The forest --------------------------------------------------------------------

  ghost function ParentOf(w: World, n: Node?): Node? {
    if n == null || n !in w then null else w[n].parent
  }

  /** The ancestor of `n` that is `k` levels up. */
  ghost function Up(w: World, n: Node?, k: nat): Node? {
    if k == 0 then n else ParentOf(w, Up(w, n, k - 1))
  }

  /** No node is its own ancestor. */
  ghost predicate Forest(w: World) {
    forall n, k: nat :: n in w && 0 < k ==> Up(w, n, k) != n
  }

  /** Is `c` the node `n` or an ancestor of it? */
  ghost predicate Under(w: World, n: Node?, c: Node) {
    exists k: nat :: Up(w, n, k) == c
  }

  /** Does the way up from `n` meet the nodes `r`? */
  ghost predicate Meets(w: World, n: Node?, r: set<Node>) {
    exists k: nat :: Up(w, n, k) in r
  }

  lemma {:induction false} UpAdds(w: World, n: Node?, j: nat, k: nat)
    ensures Up(w, Up(w, n, j), k) == Up(w, n, j + k)
  {
    if k > 0 {
      UpAdds(w, n, j, k - 1);
    }
  }

  lemma {:induction false} UpFromNull(w: World, k: nat)
    ensures Up(w, null, k) == null
  {
    if k > 0 {
      UpFromNull(w, k - 1);
    }
  }

  /** The two worlds differ at most in the parents of the nodes `r`. */
  ghost predicate SameBut(w: World, v: World, r: set<Node>) {
    w.Keys == v.Keys && forall x :: x in w && x !in r ==> w[x].parent == v[x].parent
  }

  lemma {:induction false} SameWay(w: World, v: World, r: set<Node>, n: Node?, k: nat)
    requires SameBut(w, v, r)
    requires forall j: nat :: j < k ==> Up(w, n, j) !in r
    ensures Up(w, n, k) == Up(v, n, k)
  {
    if k > 0 {
      SameWay(w, v, r, n, k - 1);
      assert Up(w, n, k - 1) !in r;
    }
  }

  lemma {:induction false} FirstMeeting(w: World, n: Node?, r: set<Node>, k: nat) returns (j: nat)
    requires Up(w, n, k) in r
    ensures j <= k && Up(w, n, j) in r && forall i: nat :: i < j ==> Up(w, n, i) !in r
  {
    if i: nat :| i < k && Up(w, n, i) in r {
      j := FirstMeeting(w, n, r, i);
    } else {
      j := k;
    }
  }

  /** When the nodes `r` get the new parent `t`, the forest stays one exactly if the way up from
    * `t` does not meet them. */
  lemma Redirect(w: World, v: World, r: set<Node>, t: Node?)
    requires SameBut(w, v, r) && r <= w.Keys && (forall x :: x in r ==> v[x].parent == t) && (t != null ==> t in w)
    requires Forest(w)
    ensures Forest(v) <==> !Meets(w, t, r)
  {
    if Meets(w, t, r) {
      var k: nat :| Up(w, t, k) in r;
      Cycle(w, v, r, t, k);
    } else {
      forall x, k: nat | x in v && 0 < k ensures Up(v, x, k) != x {
        NoCycle(w, v, r, t, x, k);
      }
    }
  }

  lemma Cycle(w: World, v: World, r: set<Node>, t: Node?, k: nat)
    requires SameBut(w, v, r) && r <= w.Keys && (forall x :: x in r ==> v[x].parent == t) && (t != null ==> t in w)
    requires Up(w, t, k) in r
    ensures !Forest(v)
  {
    var j := FirstMeeting(w, t, r, k);
    SameWay(w, v, r, t, j);
    UpFromNull(w, j);
    assert Up(v, t, j + 1) == t;
  }

  lemma NoCycle(w: World, v: World, r: set<Node>, t: Node?, x: Node, k: nat)
    requires SameBut(w, v, r) && r <= w.Keys && (forall x :: x in r ==> v[x].parent == t) && (t != null ==> t in w)
    requires Forest(w) && !Meets(w, t, r) && x in v && 0 < k
    ensures Up(v, x, k) != x
  {
    if j: nat :| j < k && Up(v, x, j) in r {
      assert Up(v, x, j + 1) == t;
      if t == null {
        UpAdds(v, x, j + 1, k - j - 1);
        UpFromNull(v, k - j - 1);
      } else {
        UpAdds(v, x, j + 1, k);
        UpAdds(v, x, k, j + 1);
        SameWay(w, v, r, t, k);
        assert Up(w, t, k) != t;
      }
    } else {
      if Up(v, x, k) == x {
        SameWay(v, w, r, x, k);
      }
    }
  }

  /** Inserting keeps the forest exactly if `n` is not the new child or below it. */
  lemma InsertForest(w: World, n: Node, c: Node, prev: Node?, next: Node?)
    requires Forest(w) && n in w && c in w
    ensures Forest(Spliced(w, n, c, prev, next)) <==> !Under(w, n, c)
  {
    var v := Spliced(w, n, c, prev, next);
    Redirect(w, v, {c}, n);
    assert Meets(w, n, {c}) <==> Under(w, n, c) by {
      assert forall k: nat :: Up(w, n, k) in {c} <==> Up(w, n, k) == c;
    }
  }

  lemma RemoveForest(w: World, n: Node, c: Node)
    requires Forest(w) && c in w
    ensures Forest(Removed(w, n, c))
  {
    Redirect(w, Removed(w, n, c), {c}, null);
    forall k: nat ensures Up(w, null, k) !in {c} {
      UpFromNull(w, k);
    }
  }

  // ----- Moving all children -----------------------------------------------------------

  /** Moving the children keeps the forest exactly if `dst` is not below `src`. */
  lemma ReparentForest(w: World, v: World, lists: Lists, dst: Node, src: Node)
    requires Linked(w, lists) && {dst, src} <= w.Keys && dst != src && Forest(w)
    requires Linked(v, lists[dst := lists[dst] + lists[src]][src := []])
    ensures Forest(v) <==> !Under(w, dst, src)
  {
    hide Forest, ListOf;
    var r := set x | x in lists[src];
    forall x | x in w ensures w[x].parent == src <==> x in r {
      InListAt(w, lists, src, x);
    }
    var after := lists[dst := lists[dst] + lists[src]][src := []];
    forall x | x in v ensures v[x].parent == if x in r then dst else w[x].parent {
      MovedParent(w, v, lists, dst, src, x);
    }
    forall x | x in r ensures x in w {
      InListAt(w, lists, src, x);
    }
    Redirect(w, v, r, dst);
    BelowMeets(w, dst, src, r);
  }

  lemma BelowMeets(w: World, dst: Node, src: Node, r: set<Node>)
    requires dst in w && dst != src && forall x :: x in r <==> x in w && w[x].parent == src
    ensures Meets(w, dst, r) <==> Under(w, dst, src)
  {
    if k: nat :| Up(w, dst, k) in r {
      assert Up(w, dst, k + 1) == src;
    }
    if k: nat :| Up(w, dst, k) == src {
      assert k > 0 && Up(w, dst, k - 1) in r;
    }
  }

  lemma InListAt(w: World, lists: Lists, n: Node, x: Node)
    requires Linked(w, lists) && n in w
    ensures n in lists && (x in lists[n] <==> x in w && w[x].parent == n)
  {
    var s := lists[n];
    assert ListOf(w, n, s);
    if x in s {
      var i :| 0 <= i < |s| && s[i] == x;
      Inside(w, n, s, i);
    } else if x in w {
      assert Homed(w, lists, x);
    }
  }

  lemma MovedParent(w: World, v: World, lists: Lists, dst: Node, src: Node, x: Node)
    requires Linked(w, lists) && {dst, src} <= w.Keys && dst != src && x in w
    requires Linked(v, lists[dst := lists[dst] + lists[src]][src := []])
    ensures x in v && v[x].parent == if x in lists[src] then dst else w[x].parent
  {
    hide Linked;
    LinkedKeys(w, lists);
    var after := lists[dst := lists[dst] + lists[src]][src := []];
    LinkedKeys(v, after);
    InListAt(w, lists, src, x);
    InListAt(w, lists, dst, x);
    InListAt(v, after, dst, x);
    var p, q := w[x].parent, v[x].parent;
    if p != null {
      ClosedAt(w, lists, x);
      InListAt(w, lists, p, x);
      InListAt(v, after, p, x);
    }
    if q != null {
      ClosedAt(v, after, x);
      InListAt(v, after, q, x);
      InListAt(w, lists, q, x);
    }
  }
}
