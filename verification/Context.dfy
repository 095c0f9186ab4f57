/** The tree of contexts and its cancellation (x/net/context/pre_go17.go).
  *
  * Every operation runs under the locks of the source and is modelled as one step. Parents are
  * contexts of the package itself. */
module ContextTree {
  import opened Options
  import opened ContextCalls

  /** A context; `closed` counts how often its done channel was closed. */
  class Context {
    const kind: Kind
    const parent: Context?
    ghost const depth: nat
    var err: Option<Error>
    var closed: nat
    var children: set<Context>
    var timer: bool

    constructor (kind: Kind, parent: Context?)
      ensures this.kind == kind && this.parent == parent
      ensures depth == if parent == null then 0 else parent.depth + 1
      ensures err == None && closed == 0 && children == {} && !timer
    {
      this.kind, this.parent := kind, parent;
      depth := if parent == null then 0 else parent.depth + 1;
      err, closed, children, timer := None, 0, {}, false;
    }
  }

  // ----- The shape, which does not change ----------------------------------------------

  predicate Cancelable(c: Context) {
    c.kind.CancelCtx? || c.kind.TimerCtx?
  }

  ghost predicate WellMade(c: Context) {
    c.parent != null ==> c.depth == c.parent.depth + 1
  }

  ghost predicate Shape(all: set<Context>) {
    forall c :: c in all ==> WellMade(c) && (c.parent != null ==> c.parent in all)
  }

  /** Is `c` the context `n` or an ancestor of it? */
  ghost predicate Under(n: Context, c: Context)
    decreases n.depth
  {
    n == c || (n.parent != null && n.parent.depth < n.depth && Under(n.parent, c))
  }

  /** The nearest context from `p` up that can be canceled (`parentCancelCtx`). */
  ghost function Near(p: Context?): Context?
    decreases if p == null then 0 else p.depth + 1
  {
    if p == null || Cancelable(p) then p
    else if p.kind.ValueCtx? && p.parent != null && p.parent.depth < p.depth then Near(p.parent)
    else null
  }

  /** The deadline of a context is that of the nearest timer. */
  ghost function DeadlineOf(c: Context?): Option<int>
    decreases if c == null then 0 else c.depth + 1
  {
    if c == null then None
    else if c.kind.TimerCtx? then Some(c.kind.deadline)
    else if c.parent != null && c.parent.depth < c.depth then DeadlineOf(c.parent)
    else None
  }

  /** Only the root has no parent, and no timer runs longer than the deadline above it. */
  ghost predicate Deadlines(all: set<Context>) {
    forall c :: c in all && c.kind.TimerCtx? && DeadlineOf(c.parent).Some? ==>
        c.kind.deadline <= DeadlineOf(c.parent).value
  }

  ghost predicate Rooted(all: set<Context>) {
    forall c :: c in all ==> (c.parent == null <==> c.kind.EmptyCtx?)
  }

  lemma {:induction false} UnderDeeper(n: Context, c: Context)
    requires Under(n, c)
    ensures n == c || n.depth > c.depth
    decreases n.depth
  {
    if n != c {
      UnderDeeper(n.parent, c);
    }
  }

  lemma {:induction false} UnderTransitive(a: Context, b: Context, c: Context)
    requires Under(a, b) && Under(b, c)
    ensures Under(a, c)
    decreases a.depth
  {
    if a != b {
      UnderTransitive(a.parent, b, c);
    }
  }

  /** The ancestors of a context form a chain. */
  lemma {:induction false} Chain(n: Context, a: Context, b: Context)
    requires Under(n, a) && Under(n, b)
    ensures Under(a, b) || Under(b, a)
    decreases n.depth
  {
    if n != a && n != b {
      Chain(n.parent, a, b);
    }
  }

  lemma {:induction false} NearIsUnder(p: Context?)
    ensures Near(p) != null ==> p != null && Cancelable(Near(p)) && Under(p, Near(p))
    decreases if p == null then 0 else p.depth + 1
  {
    if p != null && !Cancelable(p) && p.kind.ValueCtx? && p.parent != null && p.parent.depth < p.depth {
      NearIsUnder(p.parent);
    }
  }

  /** A cancelable ancestor is at or above the nearest one. */
  lemma {:induction false} NearIsNearest(p: Context, c: Context, all: set<Context>)
    requires Under(p, c) && Cancelable(c) && p in all && Shape(all) && Rooted(all)
    ensures Near(p) != null && Under(Near(p), c)
    decreases p.depth
  {
    if !Cancelable(p) {
      NearIsNearest(p.parent, c, all);
    }
  }

  /** The subtrees of two children do not meet. */
  lemma Disjoint(n: Context, a: Context, b: Context, c: Context, all: set<Context>)
    requires Shape(all) && Rooted(all) && {a, b} <= all && Cancelable(a) && Cancelable(b)
    requires Near(a.parent) == c == Near(b.parent) && Under(n, a) && Under(n, b)
    ensures a == b
  {
    Chain(n, a, b);
    if Under(a, b) {
      Apart(a, b, c, all);
    } else {
      Apart(b, a, c, all);
    }
  }

  lemma Apart(a: Context, b: Context, c: Context, all: set<Context>)
    requires Shape(all) && Rooted(all) && {a, b} <= all && Cancelable(a) && Cancelable(b)
    requires Near(a.parent) == c == Near(b.parent) && Under(a, b)
    ensures a == b
  {
    NearIsUnder(a.parent);
    NearIsUnder(b.parent);
    UnderDeeper(b.parent, c);
    if a != b {
      NearIsNearest(a.parent, b, all);
      UnderDeeper(c, b);
    }
  }

  // ----- The state, as a value ---------------------------------------------------------

  datatype State = State(err: Option<Error>, closed: nat, children: set<Context>, timer: bool)

  type World = map<Context, State>

  ghost predicate Live(w: World, n: Context)
    requires n in w
  {
    Cancelable(n) && w[n].err.None?
  }

  /** Every live context below `c` waits with its nearest cancelable ancestor, which is live. */
  ghost predicate Registered(w: World, c: Context?) {
    forall n :: n in w && Live(w, n) && (c == null || (Under(n, c) && n != c)) ==>
      var p := Near(n.parent);
      p != null ==> p in w && Live(w, p) && n in w[p].children
  }

  /** From `c` down, only such contexts are registered. */
  ghost predicate Sound(w: World, c: Context?) {
    forall p, x :: p in w && (c == null || Under(p, c)) && x in w[p].children ==>
      x in w && Live(w, x) && Live(w, p) && Near(x.parent) == p
  }

  /** A done channel was closed once if the context was canceled, and never if not. */
  ghost predicate ClosedOnce(w: World) {
    forall n :: n in w ==>
      && w[n].closed == (if w[n].err.Some? then 1 else 0)
      && (w[n].timer ==> n.kind.TimerCtx? && Live(w, n))
      && (w[n].err.Some? ==> Cancelable(n))
  }

  ghost predicate Consistent(w: World) {
    Shape(w.Keys) && Rooted(w.Keys) && Deadlines(w.Keys) && Registered(w, null) && Sound(w, null) && ClosedOnce(w)
  }

  /** Everything live from `c` down is canceled with the error `e`; nothing else changes. */
  ghost function Canceled1(s: State, e: Error): State {
    State(Some(e), s.closed + 1, {}, false)
  }

  ghost function After(w: World, c: Context, e: Error): World {
    map n | n in w :: if Live(w, n) && Under(n, c) then Canceled1(w[n], e) else w[n]
  }

  // ----- What consistency means --------------------------------------------------------

  /** No live context has a canceled ancestor. */
  lemma {:induction false} NoLiveUnderCanceled(w: World, n: Context, a: Context)
    requires Consistent(w) && n in w && Live(w, n) && a in w && Cancelable(a) && Under(n, a)
    ensures Live(w, a)
    decreases n.depth
  {
    if n != a {
      NearIsNearest(n.parent, a, w.Keys);
      NearIsUnder(n.parent);
      UnderDeeper(n.parent, Near(n.parent));
      NoLiveUnderCanceled(w, Near(n.parent), a);
    }
  }

  /** The deadline of a context is never later than that of an ancestor. */
  lemma {:induction false} NoLaterDeadline(w: World, n: Context, a: Context)
    requires Consistent(w) && n in w && a in w && Under(n, a) && DeadlineOf(a).Some?
    ensures DeadlineOf(n).Some? && DeadlineOf(n).value <= DeadlineOf(a).value
    decreases n.depth
  {
    if n != a {
      NoLaterDeadline(w, n.parent, a);
    }
  }

  // ----- Cancelling a subtree ----------------------------------------------------------

  /** `c` and the subtrees of the children in `done` have been canceled. */
  ghost function Partly(w: World, c: Context, done: set<Context>, e: Error): World
    requires c in w
  {
    map n | n in w ::
      if n == c then w[c].(err := Some(e), closed := w[c].closed + 1)
      else if Live(w, n) && exists k :: k in done && Under(n, k) then Canceled1(w[n], e)
      else w[n]
  }

  /** What a recursive call needs to know about the subtree of `c`. */
  ghost predicate Local(w: World, c: Context) {
    && Shape(w.Keys) && Rooted(w.Keys) && c in w && Live(w, c)
    && Registered(w, c) && Sound(w, c)
  }

  lemma UnderChild(w: World, c: Context, k: Context)
    requires Local(w, c) && k in w[c].children
    ensures k in w && Live(w, k) && Under(k, c) && k != c && Near(k.parent) == c
  {
    NearIsUnder(k.parent);
    UnderDeeper(k.parent, c);
  }

  /** The subtree of a child that is not done yet is untouched. */
  lemma ChildUntouched(w: World, c: Context, done: set<Context>, k: Context, e: Error, n: Context)
    requires Local(w, c) && done <= w[c].children && k in w[c].children - done && n in w && Under(n, k)
    ensures n != c && Partly(w, c, done, e)[n] == w[n]
  {
    hide Registered, Sound, Shape, Rooted, Under, Near;
    UnderChild(w, c, k);
    NotAbove(n, k, c);
    forall j | j in done ensures !Under(n, j) {
      UnderChild(w, c, j);
      if Under(n, j) {
        Disjoint(n, j, k, c, w.Keys);
      }
    }
  }

  lemma NotAbove(n: Context, k: Context, c: Context)
    requires Under(n, k) && Under(k, c) && k != c
    ensures n != c && Under(n, c)
  {
    hide Under;
    UnderDeeper(n, k);
    UnderDeeper(k, c);
    UnderTransitive(n, k, c);
  }

  /** Below `k` nothing has changed. */
  ghost predicate SameBelow(w: World, v: World, k: Context) {
    v.Keys == w.Keys && forall n :: n in w && Under(n, k) ==> v[n] == w[n]
  }

  lemma LocalBelow(w: World, v: World, c: Context, k: Context)
    requires Local(w, c) && k in w && Live(w, k) && Under(k, c) && k != c && SameBelow(w, v, k)
    ensures Local(v, k)
  {
    hide Registered, Sound, Under, Near;
    RegisteredBelow(w, v, c, k);
    SoundBelow(w, v, c, k);
    assert v[k] == w[k] by { Itself(k); }
  }

  lemma Itself(k: Context)
    ensures Under(k, k)
  {
  }

  lemma SoundBelow(w: World, v: World, c: Context, k: Context)
    requires Local(w, c) && k in w && Live(w, k) && Under(k, c) && k != c && SameBelow(w, v, k)
    ensures Sound(v, k)
  {
    hide Registered, Near, Under, Shape, Rooted, Local;
    forall p, x | p in v && Under(p, k) && x in v[p].children
      ensures x in v && Live(v, x) && Live(v, p) && Near(x.parent) == p
    {
      UnderTransitive(p, k, c);
      SoundAt(w, c, p, x);
      NearAbove(x, p, k);
    }
  }

  lemma SoundAt(w: World, c: Context, p: Context, x: Context)
    requires Local(w, c) && p in w && Under(p, c) && x in w[p].children
    ensures x in w && Live(w, x) && Live(w, p) && Near(x.parent) == p && WellMade(x)
  {
    hide Registered, Near, Under, Shape, Rooted;
    ShapeAt(w.Keys, x);
  }

  lemma ShapeAt(all: set<Context>, x: Context)
    requires Shape(all) && x in all
    ensures WellMade(x) && (x.parent != null ==> x.parent in all)
  {
  }

  lemma NearAbove(x: Context, p: Context, k: Context)
    requires Under(p, k) && WellMade(x) && Near(x.parent) == p
    ensures Under(x, k)
  {
    NearIsUnder(x.parent);
    UnderTransitive(x.parent, p, k);
  }

  lemma RegisteredBelow(w: World, v: World, c: Context, k: Context)
    requires Local(w, c) && k in w && Live(w, k) && Under(k, c) && k != c && SameBelow(w, v, k)
    ensures Registered(v, k)
  {
    hide Sound, Near;
    forall n | n in v && Live(v, n) && Under(n, k) && n != k
      ensures var p := Near(n.parent); p != null ==> p in v && Live(v, p) && n in v[p].children
    {
      NotAbove(n, k, c);
      NearIsNearest(n.parent, k, w.Keys);
    }
  }

  lemma ChildLocal(w: World, c: Context, done: set<Context>, k: Context, e: Error)
    requires Local(w, c) && done <= w[c].children && k in w[c].children - done
    ensures Local(Partly(w, c, done, e), k)
  {
    hide Registered, Sound, Shape, Rooted, Near, Under;
    var v := Partly(w, c, done, e);
    UnderChild(w, c, k);
    forall n | n in w && Under(n, k) ensures v[n] == w[n] {
      ChildUntouched(w, c, done, k, e, n);
    }
    LocalBelow(w, v, c, k);
  }

  lemma ChildDone(w: World, c: Context, done: set<Context>, k: Context, e: Error)
    requires Local(w, c) && done <= w[c].children && k in w[c].children - done
    ensures After(Partly(w, c, done, e), k, e) == Partly(w, c, done + {k}, e)
  {
    hide Local, Under;
    Here(w, c);
    var v := Partly(w, c, done, e);
    forall n | n in w ensures After(v, k, e)[n] == Partly(w, c, done + {k}, e)[n] {
      if Under(n, k) {
        ChildUntouched(w, c, done, k, e, n);
      }
      assert (exists j :: j in done + {k} && Under(n, j)) <==> Under(n, k) || exists j :: j in done && Under(n, j);
    }
  }

  /** Every live context below `c` is below a child of `c`. */
  lemma {:induction false} SomeChild(w: World, c: Context, n: Context) returns (k: Context)
    requires Local(w, c) && n in w && Live(w, n) && Under(n, c) && n != c
    ensures k in w[c].children && Under(n, k)
    decreases n.depth
  {
    NearIsNearest(n.parent, c, w.Keys);
    NearIsUnder(n.parent);
    var p := Near(n.parent);
    UnderDeeper(n.parent, p);
    if p == c {
      k := n;
    } else {
      k := SomeChild(w, c, p);
      UnderTransitive(n.parent, p, k);
    }
  }

  lemma AllDone(w: World, c: Context, e: Error)
    requires Local(w, c)
    ensures var v := Partly(w, c, w[c].children, e);
      After(w, c, e) == v[c := Canceled1(w[c], e)]
  {
    hide Local, Under;
    Here(w, c);
    Itself(c);
    var v := Partly(w, c, w[c].children, e);
    forall n | n in w && n != c ensures v[n] == After(w, c, e)[n] {
      if Live(w, n) && Under(n, c) {
        var k := SomeChild(w, c, n);
      } else if Live(w, n) {
        forall k | k in w[c].children ensures !Under(n, k) {
          UnderChild(w, c, k);
          if Under(n, k) {
            UnderTransitive(n, k, c);
          }
        }
      }
    }
  }

  // ----- The operations ----------------------------------------------------------------

  ghost function StateOf(n: Context): State
    reads n
  {
    State(n.err, n.closed, n.children, n.timer)
  }

  ghost function Snap(all: set<Context>): World
    reads all
  {
    map n | n in all :: StateOf(n)
  }

  /** The first cancel call sets the error and closes the done channel. */
  method Mark(c: Context, e: Error, ghost all: set<Context>)
    requires c in all
    modifies c
    ensures Snap(all) == Partly(old(Snap(all)), c, {}, e)
  {
    NothingDone(Snap(all), c, e);
    c.err := Some(e);
    c.closed := c.closed + 1;
  }

  method Clear(c: Context, ghost all: set<Context>)
    requires c in all
    modifies c
    ensures Snap(all) == old(Snap(all))[c := old(StateOf(c)).(children := {}, timer := false)]
  {
    c.children := {};
    c.timer := false;
  }

  /** Cancels `c` and everything live below it; the parent is not told. */
  method CancelBelow(c: Context, e: Error, ghost all: set<Context>, ghost bound: nat)
    requires Local(Snap(all), c) && forall n :: n in all ==> n.depth <= bound
    modifies all
    ensures Snap(all) == After(old(Snap(all)), c, e)
    decreases bound - c.depth
  {
    hide Local, Partly, After, Under, Near;
    ghost var w := Snap(all);
    Here(w, c);
    var left := c.children;
    ghost var done: set<Context> := {};
    Mark(c, e, all);
    while left != {}
      invariant left + done == w[c].children && left !! done
      invariant Snap(all) == Partly(w, c, done, e)
      decreases |left|
    {
      var k :| k in left;
      UnderChild(w, c, k);
      UnderDeeper(k, c);
      ChildLocal(w, c, done, k, e);
      ChildDone(w, c, done, k, e);
      CancelBelow(k, e, all, bound);
      left := left - {k};
      done := done + {k};
    }
    AllDone(w, c, e);
    assert done == w[c].children;
    MarkedState(w, c, done, e);
    Clear(c, all);
  }

  lemma Here(w: World, c: Context)
    requires Local(w, c)
    ensures c in w && Live(w, c)
  {
  }

  lemma MarkedState(w: World, c: Context, done: set<Context>, e: Error)
    requires c in w
    ensures Partly(w, c, done, e)[c].(children := {}, timer := false) == Canceled1(w[c], e)
  {
  }

  lemma NothingDone(w: World, c: Context, e: Error)
    requires c in w
    ensures Partly(w, c, {}, e) == w[c := w[c].(err := Some(e), closed := w[c].closed + 1)]
  {
  }

  /** Follows the chain of parents to the nearest context that can be canceled. */
  method ParentCancelCtx(parent: Context?, ghost all: set<Context>) returns (p: Context?)
    requires Shape(all) && Rooted(all) && (parent != null ==> parent in all)
    ensures p == Near(parent)
  {
    hide Shape;
    p := parent;
    while p != null && p.kind.ValueCtx?
      invariant (p != null ==> p in all) && Near(p) == Near(parent)
      decreases if p == null then 0 else p.depth + 1
    {
      ShapeAt(all, p);
      p := p.parent;
    }
    if p != null && !Cancelable(p) {
      p := null;
    }
  }

  /** `c` is registered no more. */
  ghost function Unregistered(w: World, c: Context): World {
    var p := Near(c.parent);
    if p == null || p !in w then w else w[p := w[p].(children := w[p].children - {c})]
  }

  method RemoveChild(c: Context, ghost all: set<Context>)
    requires Shape(all) && Rooted(all) && c in all
    modifies all
    ensures Snap(all) == Unregistered(old(Snap(all)), c)
  {
    hide Shape, Rooted;
    ShapeAt(all, c);
    NearIn(c.parent, all);
    var p := ParentCancelCtx(c.parent, all);
    if p != null {
      p.children := p.children - {c};
    }
  }

  lemma {:induction false} NearIn(p: Context?, all: set<Context>)
    requires Shape(all) && (p != null ==> p in all)
    ensures Near(p) != null ==> Near(p) in all
    decreases if p == null then 0 else p.depth + 1
  {
    hide Shape;
    if p != null {
      ShapeAt(all, p);
      if p.parent != null {
        NearIn(p.parent, all);
      }
    }
  }

  lemma {:induction false} DepthBound(all: set<Context>) returns (bound: nat)
    ensures forall n :: n in all ==> n.depth <= bound
    decreases |all|
  {
    if all == {} {
      bound := 0;
    } else {
      var n :| n in all;
      var b := DepthBound(all - {n});
      bound := if b < n.depth then n.depth else b;
    }
  }

  /** What a cancel call does: the first one cancels the subtree, others do nothing. */
  ghost function Cancelled(w: World, c: Context, e: Error): World
    requires c in w
  {
    if Live(w, c) then Unregistered(After(w, c, e), c) else w
  }

  method Cancel(c: Context, e: Error, ghost all: set<Context>)
    requires Consistent(Snap(all)) && c in all && Cancelable(c)
    modifies all
    ensures Snap(all) == Cancelled(old(Snap(all)), c, e) && Consistent(Snap(all))
  {
    hide Shape, Rooted, Registered, Sound, ClosedOnce, Deadlines, Near, Under, After, Unregistered;
    ghost var w := Snap(all);
    assert w.Keys == all;
    if c.err.None? {
      ghost var bound := DepthBound(all);
      AllLocal(w, c);
      CancelBelow(c, e, all, bound);
      RemoveChild(c, all);
      CancelKeeps(w, c, e);
    } else if c.kind.TimerCtx? {
      NotRegistered(w, c);
      RemoveChild(c, all);
    }
  }

  lemma AllLocal(w: World, c: Context)
    requires Consistent(w) && c in w && Live(w, c)
    ensures Local(w, c)
  {
    hide Shape, Rooted, ClosedOnce, Deadlines, Near, Under;
    forall n | n in w && Live(w, n) && Under(n, c) && n != c
      ensures var p := Near(n.parent); p != null ==> p in w && Live(w, p) && n in w[p].children
    {
    }
  }

  lemma NotRegistered(w: World, c: Context)
    requires Consistent(w) && c in w && !Live(w, c)
    ensures Unregistered(w, c) == w
  {
    hide Shape, Rooted, ClosedOnce, Deadlines, Near, Registered;
    var p := Near(c.parent);
    if p != null && p in w {
      assert c !in w[p].children;
      assert w[p].children - {c} == w[p].children;
    }
  }

  /** Cancelling keeps the tree consistent. */
  lemma CancelKeeps(w: World, c: Context, e: Error)
    requires Consistent(w) && c in w && Live(w, c)
    ensures Consistent(Unregistered(After(w, c, e), c))
  {
    hide Shape, Rooted, Deadlines;
    var v := Unregistered(After(w, c, e), c);
    assert v.Keys == w.Keys;
    CancelRegistered(w, c, e);
    CancelSound(w, c, e);
    CancelClosed(w, c, e);
  }

  /** Only what was live below `c` changed, but for `c` itself being registered no more. */
  lemma Effect(w: World, c: Context, e: Error, n: Context)
    requires n in w && c in w
    ensures var v := Unregistered(After(w, c, e), c);
      && n in v
      && v[n].err == (if Live(w, n) && Under(n, c) then Some(e) else w[n].err)
      && v[n].closed == (if Live(w, n) && Under(n, c) then w[n].closed + 1 else w[n].closed)
      && v[n].timer == (w[n].timer && !(Live(w, n) && Under(n, c)))
      && v[n].children == (if Live(w, n) && Under(n, c) then {} else w[n].children)
                          - (if n == Near(c.parent) then {c} else {})
  {
    hide Under, Near;
  }

  lemma CancelRegistered(w: World, c: Context, e: Error)
    requires Consistent(w) && c in w && Live(w, c)
    ensures Registered(Unregistered(After(w, c, e), c), null)
  {
    hide Shape, Rooted, Deadlines, Sound, ClosedOnce, Unregistered, After, Under, Near;
    var v := Unregistered(After(w, c, e), c);
    forall n | n in v && Live(v, n)
      ensures var p := Near(n.parent); p != null ==> p in v && Live(v, p) && n in v[p].children
    {
      KeysSame(w, c, e);
      Effect(w, c, e, n);
      var p := Near(n.parent);
      if p != null {
        Effect(w, c, e, p);
        ShapeAt(w.Keys, n);
        NearIsUnder(n.parent);
        Itself(c);
        if Under(p, c) {
          ThroughNear(n, p, c);
        }
      }
    }
  }

  lemma KeysSame(w: World, c: Context, e: Error)
    ensures Unregistered(After(w, c, e), c).Keys == w.Keys
  {
    hide Under, Near;
  }

  lemma ThroughNear(n: Context, p: Context, c: Context)
    requires WellMade(n) && n.parent != null && Under(n.parent, p) && Under(p, c)
    ensures Under(n, c)
  {
    UnderTransitive(n.parent, p, c);
  }

  lemma CancelSound(w: World, c: Context, e: Error)
    requires Consistent(w) && c in w && Live(w, c)
    ensures Sound(Unregistered(After(w, c, e), c), null)
  {
    hide Shape, Rooted, Deadlines, Registered, ClosedOnce, Unregistered, After, Under, Near;
    var v := Unregistered(After(w, c, e), c);
    KeysSame(w, c, e);
    forall p, x | p in v && x in v[p].children
      ensures x in v && Live(v, x) && Live(v, p) && Near(x.parent) == p
    {
      Effect(w, c, e, p);
      Effect(w, c, e, x);
      if Under(x, c) {
        ShapeAt(w.Keys, x);
        StillBelow(x, c, w.Keys);
      }
    }
  }

  lemma StillBelow(x: Context, c: Context, all: set<Context>)
    requires Shape(all) && Rooted(all) && x in all && Under(x, c) && Cancelable(c)
    ensures x != c ==> Near(x.parent) != null && Under(Near(x.parent), c)
  {
    hide Shape, Near;
    ShapeAt(all, x);
    if x != c {
      NearIsNearest(x.parent, c, all);
    }
  }

  lemma CancelClosed(w: World, c: Context, e: Error)
    requires Consistent(w) && c in w && Live(w, c)
    ensures ClosedOnce(Unregistered(After(w, c, e), c))
  {
    hide Shape, Rooted, Deadlines, Registered, Sound, Unregistered, After, Under, Near;
    KeysSame(w, c, e);
    var v := Unregistered(After(w, c, e), c);
    forall n | n in v
      ensures v[n].closed == (if v[n].err.Some? then 1 else 0)
      ensures v[n].timer ==> n.kind.TimerCtx? && Live(v, n)
      ensures v[n].err.Some? ==> Cancelable(n)
    {
      Effect(w, c, e, n);
    }
  }

  // ----- Making contexts ---------------------------------------------------------------

  const IDLE := State(None, 0, {}, false)

  /** A new context below `parent`: it is registered with the nearest cancelable ancestor if that
    * is live, and canceled with its error if it is not. */
  ghost function Joined(w: World, c: Context): World {
    var p := Near(c.parent);
    if !Cancelable(c) || p == null || p !in w then w[c := IDLE]
    else if w[p].err.Some? then w[c := State(w[p].err, 1, {}, false)]
    else w[p := w[p].(children := w[p].children + {c})][c := IDLE]
  }

  method PropagateCancel(parent: Context, child: Context, ghost all: set<Context>)
    requires Consistent(Snap(all)) && parent in all && child !in all && child.parent == parent && StateOf(child) == IDLE
    requires Cancelable(child)
    modifies all, child
    ensures Snap(all + {child}) == Joined(old(Snap(all)), child)
  {
    hide Shape, Rooted, Registered, Sound, ClosedOnce, Deadlines;
    assert Snap(all).Keys == all;
    NearIn(parent, all);
    var p := ParentCancelCtx(parent, all);
    if p != null {
      if p.err.Some? {
        child.err := p.err;
        child.closed := child.closed + 1;
      } else {
        p.children := p.children + {child};
      }
    }
  }

  /** A new context may join: it has a parent, and its deadline is no later than that above it. */
  ghost predicate MayJoin(w: World, c: Context) {
    && c !in w && c.parent != null && c.parent in w && WellMade(c) && !c.kind.EmptyCtx?
    && (c.kind.TimerCtx? && DeadlineOf(c.parent).Some? ==> c.kind.deadline <= DeadlineOf(c.parent).value)
  }

  lemma JoinKeeps(w: World, c: Context)
    requires Consistent(w) && MayJoin(w, c)
    ensures Consistent(Joined(w, c))
  {
    hide Registered, Sound, ClosedOnce, Near;
    var v := Joined(w, c);
    assert v.Keys == w.Keys + {c};
    ShapeGrows(w.Keys, c);
    NearIn(c.parent, w.Keys);
    JoinRegistered(w, c);
    JoinSound(w, c);
    JoinClosed(w, c);
  }

  lemma ShapeGrows(all: set<Context>, c: Context)
    requires Shape(all) && WellMade(c) && c.parent != null && c.parent in all
    ensures Shape(all + {c})
  {
  }

  lemma JoinRegistered(w: World, c: Context)
    requires Consistent(w) && MayJoin(w, c)
    ensures Registered(Joined(w, c), null)
  {
    hide Shape, Rooted, Deadlines, Sound, ClosedOnce, Near, Under;
    NearIn(c.parent, w.Keys);
    NearIsUnder(c.parent);
    var v := Joined(w, c);
    forall n | n in v && Live(v, n)
      ensures var p := Near(n.parent); p != null ==> p in v && Live(v, p) && n in v[p].children
    {
      if n != c {
        assert Live(w, n);
      }
    }
  }

  lemma JoinSound(w: World, c: Context)
    requires Consistent(w) && MayJoin(w, c)
    ensures Sound(Joined(w, c), null)
  {
    hide Consistent, MayJoin, Near, Under;
    var v := Joined(w, c);
    forall p, x | p in v && x in v[p].children
      ensures x in v && Live(v, x) && Live(v, p) && Near(x.parent) == p
    {
      JoinSoundAt(w, c, p, x);
    }
  }

  lemma JoinSoundAt(w: World, c: Context, p: Context, x: Context)
    requires Consistent(w) && MayJoin(w, c) && p in Joined(w, c) && x in Joined(w, c)[p].children
    ensures var v := Joined(w, c); x in v && Live(v, x) && Live(v, p) && Near(x.parent) == p
  {
    hide Shape, Rooted, Deadlines, Registered, ClosedOnce, Near, Under;
    NearIn(c.parent, w.Keys);
    NearIsUnder(c.parent);
    if x != c {
      assert x in w[p].children;
    }
  }

  lemma JoinClosed(w: World, c: Context)
    requires Consistent(w) && MayJoin(w, c)
    ensures ClosedOnce(Joined(w, c))
  {
    hide Shape, Rooted, Deadlines, Registered, Sound, Near, Under;
    var v := Joined(w, c);
    forall n | n in v
      ensures v[n].closed == (if v[n].err.Some? then 1 else 0)
      ensures v[n].timer ==> n.kind.TimerCtx? && Live(v, n)
      ensures v[n].err.Some? ==> Cancelable(n)
    {
    }
  }

  method WithCancel(parent: Context, ghost all: set<Context>) returns (c: Context)
    requires Consistent(Snap(all)) && parent in all
    modifies all
    ensures fresh(c) && c.parent == parent && c.kind == CancelCtx && WellMade(c)
    ensures Snap(all + {c}) == Joined(old(Snap(all)), c) && Consistent(Snap(all + {c}))
  {
    hide Consistent, Joined, Snap;
    AllKeys(all);
    c := new Context(CancelCtx, parent);
    JoinKeeps(Snap(all), c);
    PropagateCancel(parent, c, all);
  }

  lemma AllKeys(all: set<Context>)
    ensures Snap(all).Keys == all
  {
  }

  method WithValue(parent: Context, ghost all: set<Context>) returns (c: Context)
    requires Consistent(Snap(all)) && parent in all
    ensures fresh(c) && c.parent == parent && c.kind == ValueCtx && WellMade(c)
    ensures Snap(all + {c}) == Joined(old(Snap(all)), c) && Consistent(Snap(all + {c}))
  {
    hide Consistent;
    AllKeys(all);
    c := new Context(ValueCtx, parent);
    JoinKeeps(Snap(all), c);
    assert Snap(all + {c}) == Snap(all)[c := IDLE];
  }

  method Deadline(c: Context, ghost all: set<Context>) returns (d: Option<int>)
    requires Shape(all) && Rooted(all) && c in all
    ensures d == DeadlineOf(c)
  {
    hide Shape;
    var p: Context? := c;
    while p != null && !p.kind.TimerCtx?
      invariant (p != null ==> p in all) && DeadlineOf(p) == DeadlineOf(c)
      decreases if p == null then 0 else p.depth + 1
    {
      ShapeAt(all, p);
      p := p.parent;
    }
    d := if p == null then None else Some(p.kind.deadline);
  }

  /** Contexts stay, and the first error of a context is the one it keeps. */
  ghost predicate Follows(w: World, v: World) {
    forall n :: n in w ==> n in v && (w[n].err.Some? ==> v[n].err == w[n].err)
  }

  lemma CancelFollows(w: World, c: Context, e: Error)
    requires c in w
    ensures Follows(w, Cancelled(w, c, e))
  {
    hide Under, Near, Unregistered, After;
    forall n | n in w ensures n in Cancelled(w, c, e) && (w[n].err.Some? ==> Cancelled(w, c, e)[n].err == w[n].err) {
      Effect(w, c, e, n);
    }
  }

  lemma JoinFollows(w: World, c: Context)
    requires c !in w
    ensures Follows(w, Joined(w, c))
  {
    hide Near;
  }

  lemma Stays(w: World)
    ensures Follows(w, w)
  {
  }

  lemma FollowsOn(u: World, v: World, w: World)
    requires Follows(u, v) && Follows(v, w)
    ensures Follows(u, w)
  {
  }

  lemma TimerFollows(w: World, c: Context)
    requires c in w && w[c].err.None?
    ensures Follows(w, w[c := w[c].(timer := true)])
  {
  }

  lemma StateAt(all: set<Context>, c: Context)
    requires c in all
    ensures c in Snap(all) && Snap(all)[c] == StateOf(c)
  {
  }

  lemma TimerIsLive(w: World, c: Context)
    requires Consistent(w) && c in w && w[c].timer
    ensures c.kind.TimerCtx?
  {
    hide Shape, Rooted, Deadlines, Registered, Sound;
  }

  /** A new timer is canceled if its time has passed, and started if its parent is live. */
  ghost function Timed(w: World, c: Context, now: int): World {
    var v := Joined(w, c);
    if !c.kind.TimerCtx? || c !in v then v
    else if c.kind.deadline <= now then Cancelled(v, c, DeadlineExceeded)
    else if v[c].err.None? then v[c := v[c].(timer := true)]
    else v
  }

  /** The kind of context that a deadline makes below `parent`: a later one than that of the parent
    * is dropped. */
  ghost function TimerKind(parent: Context, deadline: int): Kind {
    var cur := DeadlineOf(parent);
    if cur.Some? && cur.value < deadline then CancelCtx else TimerCtx(deadline)
  }

  /** A deadline that is later than that of the parent is dropped; one that has passed cancels. */
  method WithDeadline(parent: Context, deadline: int, now: int, ghost all: set<Context>) returns (c: Context)
    requires Consistent(Snap(all)) && parent in all
    modifies all
    ensures fresh(c) && c.parent == parent && c.kind == TimerKind(parent, deadline) && WellMade(c)
    ensures Consistent(Snap(all + {c}))
    ensures Snap(all + {c}) == Timed(old(Snap(all)), c, now)
    ensures DeadlineOf(c) == var cur := DeadlineOf(parent);
      if cur.Some? && cur.value < deadline then cur else Some(deadline)
    ensures Follows(old(Snap(all)), Snap(all + {c}))
    ensures c.kind.TimerCtx? && deadline <= now ==> c.err.Some? && !c.timer
    ensures c.kind.TimerCtx? && deadline > now ==> c.timer == c.err.None?
  {
    hide Registered, Sound, ClosedOnce, Shape, Rooted, Deadlines, Joined, Cancelled, Follows;
    AllKeys(all);
    ghost var w := Snap(all);
    var cur := Deadline(parent, all);
    if cur.Some? && cur.value < deadline {
      c := WithCancel(parent, all);
      JoinFollows(w, c);
      return;
    }
    c := new Context(TimerCtx(deadline), parent);
    JoinKeeps(w, c);
    JoinFollows(w, c);
    PropagateCancel(parent, c, all);
    ghost var v := Snap(all + {c});
    if deadline <= now {
      CanceledNow(v, c, DeadlineExceeded);
      CancelFollows(v, c, DeadlineExceeded);
      Cancel(c, DeadlineExceeded, all + {c});
      FollowsOn(w, v, Snap(all + {c}));
      assert Snap(all + {c})[c] == StateOf(c);
    } else if c.err.None? {
      TimerKeeps(v, c);
      StartTimer(c, all + {c});
      TimerFollows(v, c);
      FollowsOn(w, v, Snap(all + {c}));
    } else {
      NoTimer(v, c);
      assert Snap(all + {c})[c] == StateOf(c);
    }
  }

  method StartTimer(c: Context, ghost all: set<Context>)
    requires c in all
    modifies c
    ensures Snap(all) == old(Snap(all))[c := old(StateOf(c)).(timer := true)]
    ensures c.timer && c.err == old(c.err)
  {
    c.timer := true;
  }

  lemma TimerKeeps(w: World, c: Context)
    requires Consistent(w) && c in w && Live(w, c) && c.kind.TimerCtx?
    ensures Consistent(w[c := w[c].(timer := true)])
  {
    hide Shape, Rooted, Deadlines, Near, Under;
    var v := w[c := w[c].(timer := true)];
    assert v.Keys == w.Keys;
    assert forall n :: n in w ==> v[n].err == w[n].err && v[n].children == w[n].children && v[n].closed == w[n].closed;
    assert forall n :: n in w ==> (Live(v, n) <==> Live(w, n));
    assert Registered(v, null);
    assert Sound(v, null);
    assert ClosedOnce(v);
  }

  lemma NoTimer(w: World, c: Context)
    requires Consistent(w) && c in w && w[c].err.Some?
    ensures !w[c].timer
  {
    hide Shape, Rooted, Deadlines, Registered, Sound;
  }

  lemma CanceledNow(w: World, c: Context, e: Error)
    requires Consistent(w) && c in w && Cancelable(c)
    ensures var v := Cancelled(w, c, e); c in v && v[c].err.Some? && !v[c].timer
  {
    hide Shape, Rooted, Deadlines, Registered, Sound, Near;
    Effect(w, c, e, c);
    KeysSame(w, c, e);
    Itself(c);
  }

  // ----- Whole runs --------------------------------------------------------------------

  ghost function Elements(made: seq<Context>): set<Context> {
    set c | c in made
  }

  lemma OneMore(made: seq<Context>, c: Context)
    ensures Elements(made + [c]) == Elements(made) + {c}
  {
    assert forall n :: n in made + [c] <==> n in made || n == c;
  }

  // ----- What ends a context -----------------------------------------------------------

  /** The error that a context reports (`Err`): that of the nearest context that can be canceled. */
  ghost function ErrOf(w: World, c: Context): Option<Error> {
    var p := Near(c);
    if p == null || p !in w then None else w[p].err
  }

  /** The contexts are those of the tree, in its order. */
  ghost predicate Numbered(made: seq<Context>, nodes: seq<Node>) {
    && |made| == |nodes| && Ordered(nodes)
    && (forall i, j :: 0 <= i < j < |made| ==> made[i] != made[j])
    && forall n :: 0 <= n < |made| ==>
         && made[n].kind == nodes[n].kind && WellMade(made[n])
         && made[n].parent == if nodes[n].parent.Some? then made[nodes[n].parent.value] else null
  }

  lemma {:induction false} UnderIsAbove(made: seq<Context>, nodes: seq<Node>, n: nat, a: nat)
    requires Numbered(made, nodes) && n < |made| && a < |made|
    ensures Under(made[n], made[a]) == AtOrAbove(nodes, n, a)
    decreases n
  {
    if nodes[n].parent.Some? {
      UnderIsAbove(made, nodes, nodes[n].parent.value, a);
    }
  }

  /** A later context is not above an earlier one. */
  lemma {:induction false} NotLater(nodes: seq<Node>, n: nat, a: nat)
    requires n < a
    ensures !AtOrAbove(nodes, n, a)
    decreases n
  {
    if n < |nodes| && nodes[n].parent.Some? && nodes[n].parent.value < n {
      NotLater(nodes, nodes[n].parent.value, a);
    }
  }

  /** The deadline of a context is that of a timer at or above it. */
  lemma {:induction false} SomeTimer(made: seq<Context>, nodes: seq<Node>, n: nat) returns (a: nat)
    requires Numbered(made, nodes) && n < |made| && DeadlineOf(made[n]).Some?
    ensures a < |made| && AtOrAbove(nodes, n, a) && nodes[a].kind == TimerCtx(DeadlineOf(made[n]).value)
    decreases n
  {
    if made[n].kind.TimerCtx? {
      a := n;
    } else {
      a := SomeTimer(made, nodes, nodes[n].parent.value);
    }
  }

  /** A deadline is dropped exactly if there is an earlier one at the parent or above. */
  lemma DropsLater(w: World, made: seq<Context>, nodes: seq<Node>, p: nat, deadline: int)
    requires Numbered(made, nodes) && p < |made| && Consistent(w) && w.Keys == Elements(made)
    ensures TimerKind(made[p], deadline) == if Earlier(nodes, p, deadline) then CancelCtx else TimerCtx(deadline)
  {
    hide Consistent, Under, DeadlineOf, AtOrAbove;
    if Earlier(nodes, p, deadline) {
      var a: nat :| AtOrAbove(nodes, p, a) && a < |nodes| && nodes[a].kind.TimerCtx? &&
        nodes[a].kind.deadline < deadline;
      UnderIsAbove(made, nodes, p, a);
      OwnDeadline(made[a]);
      NoLaterDeadline(w, made[p], made[a]);
    } else if DeadlineOf(made[p]).Some? {
      var a := SomeTimer(made, nodes, p);
    }
  }

  lemma OwnDeadline(c: Context)
    requires c.kind.TimerCtx?
    ensures DeadlineOf(c) == Some(c.kind.deadline)
  {
  }

  /** A cancel call ends what is at or below its context and reports no error yet. */
  lemma CancelEnds(w: World, c: Context, e: Error, n: Context)
    requires Consistent(w) && c in w && n in w && Cancelable(c)
    ensures ErrOf(Cancelled(w, c, e), n) ==
      if ErrOf(w, n).Some? then ErrOf(w, n) else if Under(n, c) then Some(e) else None
  {
    hide Shape, Rooted, Deadlines, Registered, Sound, ClosedOnce, After, Unregistered, Near, Under;
    var p := Near(n);
    NearIn(n, w.Keys);
    NearIsUnder(n);
    if Under(n, c) {
      NearIsNearest(n, c, w.Keys);
    }
    if p != null {
      if Under(p, c) {
        UnderTransitive(n, p, c);
        if Live(w, p) {
          NoLiveUnderCanceled(w, p, c);
        }
      }
      Effect(w, c, e, p);
    }
  }

  /** Every live context with a deadline has its timer running. */
  ghost predicate TimersRun(w: World) {
    forall n :: n in w && n.kind.TimerCtx? && w[n].err.None? ==> w[n].timer
  }

  lemma CancelTimers(w: World, c: Context, e: Error)
    requires c in w && TimersRun(w)
    ensures TimersRun(Cancelled(w, c, e))
  {
    hide After, Unregistered, Near, Under;
    var v := Cancelled(w, c, e);
    KeysSame(w, c, e);
    forall n | n in v && n.kind.TimerCtx? && v[n].err.None? ensures v[n].timer {
      Effect(w, c, e, n);
    }
  }

  /** A new context reports the error of its parent, and no other context a new one. */
  lemma JoinErrs(w: World, c: Context, n: Context)
    requires Consistent(w) && MayJoin(w, c) && n in w + map[c := IDLE]
    ensures ErrOf(Joined(w, c), n) == ErrOf(w, if n == c then c.parent else n)
  {
    hide Deadlines, Registered, Sound, ClosedOnce, Near, Under;
    NearIn(c.parent, w.Keys);
    NearNew(c);
    if n != c {
      NearIn(n, w.Keys);
    }
  }

  lemma NearNew(c: Context)
    ensures Cancelable(c) ==> Near(c) == c
    ensures c.kind.ValueCtx? && c.parent != null && WellMade(c) ==> Near(c) == Near(c.parent)
  {
  }

  // ----- Calls --------------------------------------------------------------------------

  /** The call has made one context `c` of kind `kind` below that with number `p`. */
  ghost predicate Made(made: seq<Context>, now: seq<Context>, p: nat, kind: Kind) {
    && p < |made| && |now| == |made| + 1 && made == now[..|made|]
    && now[|made|].parent == made[p] && now[|made|].kind == kind && now[|made|] !in made && WellMade(now[|made|])
  }

  /** What a call does; one that names no such context makes no change. */
  ghost predicate Performed(call: Call, made: seq<Context>, now: seq<Context>, w: World, v: World) {
    match call
    case NewCancel(p) =>
      if p >= |made| then now == made && v == w
      else Made(made, now, p, CancelCtx) && v == Joined(w, now[|made|])
    case NewValue(p) =>
      if p >= |made| then now == made && v == w
      else Made(made, now, p, ValueCtx) && v == Joined(w, now[|made|])
    case NewDeadline(p, deadline, time) =>
      if p >= |made| then now == made && v == w
      else Made(made, now, p, TimerKind(made[p], deadline)) && v == Timed(w, now[|made|], time)
    case CallCancel(i) =>
      now == made && v == if i < |made| && Cancelable(made[i]) && made[i] in w then Cancelled(w, made[i], Canceled)
          else w
    case TimerFires(i) =>
      now == made && v == if i < |made| && made[i] in w && w[made[i]].timer then
          Cancelled(w, made[i], DeadlineExceeded) else w
  }

  // ----- Runs report what their calls say -----------------------------------------------

  /** Every context reports the error of the first call that ends it or an ancestor. */
  ghost predicate Told(w: World, made: seq<Context>, nodes: seq<Node>, calls: seq<Call>) {
    forall n :: 0 <= n < |made| ==> ErrOf(w, made[n]) == Fate(nodes, calls, n)
  }

  ghost predicate Known(w: World, made: seq<Context>, calls: seq<Call>) {
    && Numbered(made, Tree(calls)) && w.Keys == Elements(made) && Consistent(w) && TimersRun(w)
    && Told(w, made, Tree(calls), calls)
  }

  lemma FateOn(nodes: seq<Node>, calls: seq<Call>, call: Call, n: nat)
    ensures var fate := Fate(nodes, calls, n);
      var end := Ending(Tree(calls), call);
      Fate(nodes, calls + [call], n) ==
        if fate.Some? then fate
        else if end.Some? && AtOrAbove(nodes, n, end.value.0) then Some(end.value.1)
        else None
    ensures Tree(calls + [call]) == Grown(Tree(calls), call)
  {
    hide Ending, AtOrAbove, Grown;
    var all := calls + [call];
    assert all[..|all| - 1] == calls && all[|all| - 1] == call;
  }

  /** A call that ends the context with number `a`, and nothing else. */
  lemma ToldCancel(w: World, made: seq<Context>, nodes: seq<Node>, calls: seq<Call>, call: Call, a: nat, e: Error)
    requires Numbered(made, nodes) && w.Keys == Elements(made) && Consistent(w) && Told(w, made, nodes, calls)
    requires a < |made| && Cancelable(made[a]) && Ending(Tree(calls), call) == Some((a, e))
    ensures Told(Cancelled(w, made[a], e), made, nodes, calls + [call])
  {
    hide Consistent, Cancelled, Ending, Tree, AtOrAbove, ErrOf, Fate, Numbered;
    forall n | 0 <= n < |made|
      ensures ErrOf(Cancelled(w, made[a], e), made[n]) == Fate(nodes, calls + [call], n)
    {
      CancelEnds(w, made[a], e, made[n]);
      UnderIsAbove(made, nodes, n, a);
      FateOn(nodes, calls, call, n);
    }
  }

  /** A call that ends nothing. */
  lemma ToldNothing(w: World, made: seq<Context>, nodes: seq<Node>, calls: seq<Call>, call: Call)
    requires Told(w, made, nodes, calls) && Ending(Tree(calls), call).None?
    ensures Told(w, made, nodes, calls + [call])
  {
    hide Ending, Tree, AtOrAbove, ErrOf, Fate;
    forall n | 0 <= n < |made| ensures ErrOf(w, made[n]) == Fate(nodes, calls + [call], n) {
      FateOn(nodes, calls, call, n);
    }
  }

  /** A new context `c` below `made[p]`. */
  ghost predicate NewBelow(w: World, made: seq<Context>, nodes: seq<Node>, c: Context, p: nat) {
    && Numbered(made, nodes) && w.Keys == Elements(made) && p < |made| && c.parent == made[p] && c !in w
    && WellMade(c) && !c.kind.EmptyCtx?
  }

  lemma NumberedOn(w: World, made: seq<Context>, nodes: seq<Node>, c: Context, p: nat)
    requires NewBelow(w, made, nodes, c, p)
    ensures Numbered(made + [c], nodes + [Node(c.kind, Some(p))])
  {
    var all := made + [c];
    forall i, j | 0 <= i < j < |all| ensures all[i] != all[j] {
      assert all[i] in made;
    }
  }

  lemma ToldJoin(w: World, made: seq<Context>, calls: seq<Call>, c: Context, p: nat)
    requires Consistent(w) && MayJoin(w, c) && Told(w, made, Tree(calls), calls)
    requires NewBelow(w, made, Tree(calls), c, p)
    ensures Told(Joined(w, c), made + [c], Tree(calls) + [Node(c.kind, Some(p))], calls)
  {
    hide Consistent, Joined, Tree, ErrOf, Fate, Numbered, WellMade;
    var nodes := Tree(calls);
    var more, all := nodes + [Node(c.kind, Some(p))], made + [c];
    assert |made| == |nodes| by { Lengths(made, nodes); }
    forall n | 0 <= n < |all| ensures ErrOf(Joined(w, c), all[n]) == Fate(more, calls, n) {
      if n == |made| {
        assert all[n] == c;
        JoinErrs(w, c, c);
        SameFate(nodes, more, calls, p);
        ParentsFate(more, calls, n);
      } else {
        assert all[n] == made[n] && made[n] in w;
        JoinErrs(w, c, made[n]);
        SameFate(nodes, more, calls, n);
      }
    }
  }

  lemma SameKind(made: seq<Context>, nodes: seq<Node>, n: nat)
    requires Numbered(made, nodes)
    ensures n < |made| ==> n < |nodes| && made[n].kind == nodes[n].kind
  {
  }

  lemma Lengths(made: seq<Context>, nodes: seq<Node>)
    requires Numbered(made, nodes)
    ensures |made| == |nodes|
  {
  }

  lemma KnowsCancel(w: World, made: seq<Context>, calls: seq<Call>, call: Call, a: nat, e: Error)
    requires Known(w, made, calls) && Grown(Tree(calls), call) == Tree(calls)
    requires a < |made| && Cancelable(made[a]) && Ending(Tree(calls), call) == Some((a, e))
    requires Consistent(Cancelled(w, made[a], e))
    ensures Known(Cancelled(w, made[a], e), made, calls + [call])
  {
    hide Consistent, Ending, Grown, Tree, Told, TimersRun, Numbered, Under, Near, After, Unregistered;
    assert made[a] in w;
    FateOn(Tree(calls), calls, call, a);
    ToldCancel(w, made, Tree(calls), calls, call, a, e);
    CancelTimers(w, made[a], e);
    KeysSame(w, made[a], e);
  }

  lemma KnowsNothing(w: World, made: seq<Context>, calls: seq<Call>, call: Call)
    requires Known(w, made, calls) && Grown(Tree(calls), call) == Tree(calls) && Ending(Tree(calls), call).None?
    ensures Known(w, made, calls + [call])
  {
    hide Consistent, Ending, Grown, Tree, Told, TimersRun, Numbered;
    FateOn(Tree(calls), calls, call, 0);
    ToldNothing(w, made, Tree(calls), calls, call);
  }

  /** All but the timer of a new context. */
  lemma JoinedIs(w: World, made: seq<Context>, calls: seq<Call>, call: Call, c: Context, p: nat)
    requires Known(w, made, calls) && MayJoin(w, c) && p < |made| && c.parent == made[p]
    requires Grown(Tree(calls), call) == Tree(calls) + [Node(c.kind, Some(p))]
    ensures var v, all, nodes := Joined(w, c), made + [c], Tree(calls + [call]);
      && nodes == Tree(calls) + [Node(c.kind, Some(p))]
      && Numbered(all, nodes) && v.Keys == Elements(all) && Consistent(v) && Told(v, all, nodes, calls)
  {
    hide Consistent, Grown, Tree, Told, TimersRun, Numbered, Near;
    var v := Joined(w, c);
    FateOn(Tree(calls), calls, call, 0);
    assert NewBelow(w, made, Tree(calls), c, p);
    NumberedOn(w, made, Tree(calls), c, p);
    JoinKeeps(w, c);
    ToldJoin(w, made, calls, c, p);
    OneMore(made, c);
    JoinedKeys(w, c);
  }

  lemma JoinedKeys(w: World, c: Context)
    ensures Joined(w, c).Keys == w.Keys + {c}
  {
    hide Near;
  }

  lemma JoinTimers(w: World, c: Context)
    requires TimersRun(w) && c !in w
    ensures var v := Joined(w, c); forall n :: n in v && n != c && n.kind.TimerCtx? && v[n].err.None? ==> v[n].timer
  {
    hide Near;
  }

  /** A new context without a timer. */
  lemma KnowsJoin(w: World, made: seq<Context>, calls: seq<Call>, call: Call, c: Context, p: nat)
    requires Known(w, made, calls) && MayJoin(w, c) && p < |made| && c.parent == made[p] && !c.kind.TimerCtx?
    requires Grown(Tree(calls), call) == Tree(calls) + [Node(c.kind, Some(p))] && Ending(Tree(calls), call).None?
    ensures Known(Joined(w, c), made + [c], calls + [call])
  {
    hide Consistent, Grown, Tree, Told, Numbered, Joined, MayJoin, Ending;
    var v, all, nodes := Joined(w, c), made + [c], Tree(calls + [call]);
    JoinedIs(w, made, calls, call, c, p);
    ToldNothing(v, all, nodes, calls, call);
    NotYet(w, c);
    JoinTimers(w, c);
  }

  lemma NotYet(w: World, c: Context)
    requires MayJoin(w, c)
    ensures c !in w
  {
  }

  /** A new context with a timer, which is started or has passed. */
  lemma KnowsTimer(w: World, made: seq<Context>, calls: seq<Call>, call: Call, c: Context, p: nat, now: int)
    requires Known(w, made, calls) && MayJoin(w, c) && p < |made| && c.parent == made[p] && c.kind.TimerCtx?
    requires Grown(Tree(calls), call) == Tree(calls) + [Node(c.kind, Some(p))] && Consistent(Timed(w, c, now))
    requires Ending(Tree(calls), call) ==
      if c.kind.deadline <= now then Some((|Tree(calls)|, DeadlineExceeded)) else None
    ensures Known(Timed(w, c, now), made + [c], calls + [call])
  {
    hide Consistent, Grown, Tree, Told, Numbered, Joined, MayJoin, Ending, Cancelled;
    var v, all, nodes := Joined(w, c), made + [c], Tree(calls + [call]);
    JoinedIs(w, made, calls, call, c, p);
    Lengths(made, Tree(calls));
    NotYet(w, c);
    JoinTimers(w, c);
    JoinedKeys(w, c);
    if c.kind.deadline <= now {
      ToldCancel(v, all, nodes, calls, call, |made|, DeadlineExceeded);
      CancelNewTimer(v, c);
    } else {
      ToldNothing(v, all, nodes, calls, call);
      if v[c].err.None? {
        ToldTimer(v, c, all, nodes, calls + [call]);
      }
    }
  }

  lemma ToldTimer(w: World, c: Context, made: seq<Context>, nodes: seq<Node>, calls: seq<Call>)
    requires Told(w, made, nodes, calls) && c in w
    ensures Told(w[c := w[c].(timer := true)], made, nodes, calls)
  {
    hide Near, Fate;
    var v := w[c := w[c].(timer := true)];
    assert forall n :: n in w ==> v[n].err == w[n].err;
  }

  /** Canceling the only timer that does not run. */
  lemma CancelNewTimer(w: World, c: Context)
    requires Consistent(w) && c in w && Cancelable(c)
    requires forall n :: n in w && n != c && n.kind.TimerCtx? && w[n].err.None? ==> w[n].timer
    ensures var v := Cancelled(w, c, DeadlineExceeded); TimersRun(v) && v.Keys == w.Keys
  {
    hide Consistent, After, Unregistered, Near;
    var v := Cancelled(w, c, DeadlineExceeded);
    KeysSame(w, c, DeadlineExceeded);
    forall n | n in v && n.kind.TimerCtx? && v[n].err.None? ensures v[n].timer {
      Effect(w, c, DeadlineExceeded, n);
      Itself(c);
    }
  }

  lemma Joins(w: World, made: seq<Context>, calls: seq<Call>, c: Context, p: nat)
    requires Known(w, made, calls) && p < |made| && c.parent == made[p] && c !in made && WellMade(c)
    requires c.kind.CancelCtx? || c.kind.ValueCtx? ||
      (c.kind.TimerCtx? && c.kind == TimerKind(made[p], c.kind.deadline))
    ensures MayJoin(w, c) && |Tree(calls)| == |made|
  {
    hide Consistent, Told, Tree, TimersRun, WellMade, DeadlineOf;
    Lengths(made, Tree(calls));
    assert made[p] in w && c !in w;
  }

  lemma KnowsDeadline(w: World, made: seq<Context>, calls: seq<Call>, p: nat, deadline: int, time: int,
      now: seq<Context>, v: World)
    requires Known(w, made, calls) && Performed(NewDeadline(p, deadline, time), made, now, w, v) && Consistent(v)
    ensures Known(v, now, calls + [NewDeadline(p, deadline, time)])
  {
    hide Consistent, Tree, Told, Joined, Cancelled, TimerKind, Earlier, Numbered, TimersRun;
    var call := NewDeadline(p, deadline, time);
    Lengths(made, Tree(calls));
    if p < |made| {
      var c := now[|made|];
      assert now == made + [c];
      DropsLater(w, made, Tree(calls), p, deadline);
      Joins(w, made, calls, c, p);
      if Earlier(Tree(calls), p, deadline) {
        KnowsJoin(w, made, calls, call, c, p);
      } else {
        KnowsTimer(w, made, calls, call, c, p, time);
      }
    } else {
      KnowsNothing(w, made, calls, call);
    }
  }

  /** A timer that fires; if it does not run, the context has ended. */
  lemma KnowsFired(w: World, made: seq<Context>, calls: seq<Call>, i: nat, v: World)
    requires Known(w, made, calls) && Performed(TimerFires(i), made, made, w, v) && Consistent(v)
    ensures Known(v, made, calls + [TimerFires(i)])
  {
    hide Consistent, Tree, Told, Unregistered, After;
    var call := TimerFires(i);
    Lengths(made, Tree(calls));
    if i < |made| {
      assert made[i] in w;
      if w[made[i]].timer {
        TimerIsLive(w, made[i]);
      }
    }
    if i < |made| && made[i].kind.TimerCtx? {
      KnowsCancel(w, made, calls, call, i, DeadlineExceeded);
    } else {
      KnowsNothing(w, made, calls, call);
    }
  }

  /** What is known stays known over every call. */
  lemma Knows(w: World, made: seq<Context>, calls: seq<Call>, call: Call, now: seq<Context>, v: World)
    requires Known(w, made, calls) && Performed(call, made, now, w, v) && Consistent(v)
    ensures Known(v, now, calls + [call])
  {
    hide Consistent, Tree, Told, Joined, Cancelled, Timed, TimerKind, Earlier, Numbered, TimersRun;
    Lengths(made, Tree(calls));
    match call
    case NewCancel(p) =>
      if p < |made| {
        var c := now[|made|];
        assert now == made + [c];
        Joins(w, made, calls, c, p);
        KnowsJoin(w, made, calls, call, c, p);
      } else {
        KnowsNothing(w, made, calls, call);
      }
    case NewValue(p) =>
      if p < |made| {
        var c := now[|made|];
        assert now == made + [c];
        Joins(w, made, calls, c, p);
        KnowsJoin(w, made, calls, call, c, p);
      } else {
        KnowsNothing(w, made, calls, call);
      }
    case NewDeadline(p, deadline, time) => KnowsDeadline(w, made, calls, p, deadline, time, now, v);
    case CallCancel(i) =>
      SameKind(made, Tree(calls), i);
      if i < |made| && Cancelable(made[i]) {
        KnowsCancel(w, made, calls, call, i, Canceled);
      } else {
        KnowsNothing(w, made, calls, call);
      }
    case TimerFires(i) => KnowsFired(w, made, calls, i, v);
  }

  method Perform(call: Call, made: seq<Context>) returns (now: seq<Context>)
    requires Consistent(Snap(Elements(made)))
    modifies Elements(made)
    ensures made <= now && fresh(Elements(now) - Elements(made))
    ensures Performed(call, made, now, old(Snap(Elements(made))), Snap(Elements(now)))
    ensures Consistent(Snap(Elements(now))) && Follows(old(Snap(Elements(made))), Snap(Elements(now)))
  {
    hide Consistent, Joined, Cancelled, Timed, TimerKind, Follows, Snap;
    ghost var all := Elements(made);
    AllKeys(all);
    now := made;
    Stays(Snap(all));
    match call
    case NewCancel(p) =>
      if p < |made| {
        var c := WithCancel(made[p], all);
        JoinFollows(old(Snap(all)), c);
        OneMore(made, c);
        now := made + [c];
      }
    case NewValue(p) =>
      if p < |made| {
        var c := WithValue(made[p], all);
        JoinFollows(old(Snap(all)), c);
        OneMore(made, c);
        now := made + [c];
      }
    case NewDeadline(p, deadline, time) =>
      if p < |made| {
        var c := WithDeadline(made[p], deadline, time, all);
        OneMore(made, c);
        now := made + [c];
      }
    case CallCancel(i) =>
      if i < |made| && Cancelable(made[i]) {
        CancelFollows(Snap(all), made[i], Canceled);
        Cancel(made[i], Canceled, all);
      }
    case TimerFires(i) =>
      if i < |made| {
        StateAt(all, made[i]);
      }
      if i < |made| && made[i].timer {
        TimerIsLive(Snap(all), made[i]);
        CancelFollows(Snap(all), made[i], DeadlineExceeded);
        Cancel(made[i], DeadlineExceeded, all);
      }
  }

  /** Every state of every run is consistent, and no later state takes back an error. */
  ghost predicate Safe(states: seq<World>) {
    && (forall i :: 0 <= i < |states| ==> Consistent(states[i]))
    && (forall i, j :: 0 <= i < j < |states| ==> Follows(states[i], states[j]))
  }

  lemma RunGrows(states: seq<World>, w: World)
    requires states != [] && Safe(states) && Consistent(w) && Follows(states[|states| - 1], w)
    ensures Safe(states + [w])
  {
    hide Consistent, Follows;
    forall i | 0 <= i < |states| ensures Follows(states[i], w) {
      if i < |states| - 1 {
        FollowsOn(states[i], states[|states| - 1], w);
      }
    }
  }

  /** Any program, from the two contexts that the package makes. After every call, the contexts are
    * those that the calls say, and each reports the error of the first call that ends it or an
    * ancestor. */
  method RunProgram(calls: seq<Call>)
      returns (made: seq<Context>, ghost history: seq<seq<Context>>, ghost states: seq<World>)
    ensures |states| == |history| == |calls| + 1 && Safe(states)
    ensures forall i :: 0 <= i < |calls| ==> Performed(calls[i], history[i], history[i + 1], states[i], states[i + 1])
    ensures history[|calls|] == made && states[|calls|] == Snap(Elements(made))
    ensures forall i :: 0 <= i <= |calls| ==> Known(states[i], history[i], calls[..i])
  {
    hide Consistent, Follows, Snap, Performed, Known;
    var background := new Context(EmptyCtx, null);
    var todo := new Context(EmptyCtx, null);
    made := [background, todo];
    Start(background, todo);
    KnownFirst(background, todo);
    assert calls[..0] == [];
    history, states := [made], [Snap(Elements(made))];
    for i := 0 to |calls|
      invariant |states| == |history| == i + 1 && Safe(states) && states[i] == Snap(Elements(made)) &&
        history[i] == made
      invariant fresh(Elements(made)) && Consistent(Snap(Elements(made)))
      invariant forall j :: 0 <= j < i ==> Performed(calls[j], history[j], history[j + 1], states[j], states[j + 1])
      invariant forall j :: 0 <= j <= i ==> Known(states[j], history[j], calls[..j])
    {
      ghost var before := made;
      ghost var w := Snap(Elements(made));
      made := Perform(calls[i], made);
      Knows(w, before, calls[..i], calls[i], made, Snap(Elements(made)));
      assert calls[..i] + [calls[i]] == calls[..i + 1];
      RunGrows(states, Snap(Elements(made)));
      history, states := history + [made], states + [Snap(Elements(made))];
    }
  }

  lemma Start(background: Context, todo: Context)
    requires StateOf(background) == StateOf(todo) == IDLE
    requires background.kind == todo.kind == EmptyCtx && background.parent == todo.parent == null
    ensures Consistent(Snap(Elements([background, todo])))
  {
    var w := Snap(Elements([background, todo]));
    assert forall n :: n in w ==> n == background || n == todo;
    assert forall n :: n in w ==> w[n] == IDLE;
  }

  lemma KnownFirst(background: Context, todo: Context)
    requires StateOf(background) == StateOf(todo) == IDLE && background != todo
    requires background.kind == todo.kind == EmptyCtx && background.parent == todo.parent == null
    ensures Known(Snap(Elements([background, todo])), [background, todo], [])
  {
    Start(background, todo);
    var w := Snap(Elements([background, todo]));
    AllKeys(Elements([background, todo]));
    assert forall n :: n in w ==> n == background || n == todo;
  }
}
