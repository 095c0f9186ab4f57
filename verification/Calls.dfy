/** Programs that make and cancel contexts, by the numbers of the contexts, and what ends a
  * context: the first cancel call or deadline at it or at one of its ancestors. */
module ContextCalls {
  import opened Options

  datatype Error = Canceled | DeadlineExceeded

  datatype Kind = EmptyCtx | CancelCtx | TimerCtx(deadline: int) | ValueCtx

  /** A call of a program; contexts are numbered in the order in which they were made. */
  datatype Call =
    | NewCancel(parent: nat)
    | NewValue(parent: nat)
    | NewDeadline(parent: nat, deadline: int, now: int)
    | CallCancel(context: nat)
    | TimerFires(context: nat)

  /** A context, by the number of its parent. */
  datatype Node = Node(kind: Kind, parent: Option<nat>)

  /** Is `a` the number `n` or that of an ancestor? */
  ghost predicate AtOrAbove(nodes: seq<Node>, n: nat, a: nat)
    decreases n
  {
    || n == a
    || (n < |nodes| && nodes[n].parent.Some? && nodes[n].parent.value < n && AtOrAbove(nodes, nodes[n].parent.value, a))
  }

  /** Is there a deadline before `deadline` at `n` or above? */
  ghost predicate Earlier(nodes: seq<Node>, n: nat, deadline: int) {
    exists a: nat ::
      AtOrAbove(nodes, n, a) && a < |nodes| && nodes[a].kind.TimerCtx? && nodes[a].kind.deadline < deadline
  }

  /** The contexts after one more call. */
  ghost function Grown(nodes: seq<Node>, call: Call): seq<Node> {
    match call
    case NewCancel(p) => if p < |nodes| then nodes + [Node(CancelCtx, Some(p))] else nodes
    case NewValue(p) => if p < |nodes| then nodes + [Node(ValueCtx, Some(p))] else nodes
    case NewDeadline(p, deadline, now) =>
      if p >= |nodes| then nodes
      else if Earlier(nodes, p, deadline) then nodes + [Node(CancelCtx, Some(p))]
      else nodes + [Node(TimerCtx(deadline), Some(p))]
    case CallCancel(_) => nodes
    case TimerFires(_) => nodes
  }

  /** The contexts of a program; it starts with the background and the to-do context. */
  ghost function Tree(calls: seq<Call>): (nodes: seq<Node>) {
    if calls == [] then [Node(EmptyCtx, None), Node(EmptyCtx, None)]
    else Grown(Tree(calls[..|calls| - 1]), calls[|calls| - 1])
  }

  /** The context that a call ends by itself, and the error that it gives. */
  ghost function Ending(nodes: seq<Node>, call: Call): Option<(nat, Error)> {
    match call
    case CallCancel(i) =>
      if i < |nodes| && (nodes[i].kind.CancelCtx? || nodes[i].kind.TimerCtx?) then Some((i, Canceled)) else None
    case TimerFires(i) =>
      if i < |nodes| && nodes[i].kind.TimerCtx? then Some((i, DeadlineExceeded)) else None
    case NewDeadline(p, deadline, now) =>
      if p < |nodes| && !Earlier(nodes, p, deadline) && deadline <= now then Some((|nodes|, DeadlineExceeded)) else None
    case _ => None
  }

  /** The error of the context `n` of `nodes`: that of the first call that ends it or an ancestor. */
  ghost function Fate(nodes: seq<Node>, calls: seq<Call>, n: nat): Option<Error> {
    if calls == [] then None
    else
      var before := calls[..|calls| - 1];
      var fate := Fate(nodes, before, n);
      var end := Ending(Tree(before), calls[|calls| - 1]);
      if fate.Some? then fate
      else if end.Some? && AtOrAbove(nodes, n, end.value.0) then Some(end.value.1)
      else None
  }

  /** Does the call at `k` end `n` or an ancestor with the error `e`? */
  ghost predicate EndsAt(nodes: seq<Node>, calls: seq<Call>, k: nat, n: nat, e: Error) {
    && k < |calls|
    && var end := Ending(Tree(calls[..k]), calls[k]);
       end.Some? && AtOrAbove(nodes, n, end.value.0) && end.value.1 == e
  }

  ghost predicate NoneBefore(nodes: seq<Node>, calls: seq<Call>, k: nat, n: nat) {
    forall j: nat, d :: j < k ==> !EndsAt(nodes, calls, j, n, d)
  }

  lemma NoneIn(nodes: seq<Node>, calls: seq<Call>, last: nat, k: nat, n: nat)
    requires k <= last < |calls| && NoneBefore(nodes, calls[..last], k, n)
    ensures NoneBefore(nodes, calls, k, n)
  {
    forall j: nat, d | j < k ensures !EndsAt(nodes, calls, j, n, d) {
      assert calls[..last][..j] == calls[..j];
      assert !EndsAt(nodes, calls[..last], j, n, d);
    }
  }

  /** The error is that of the first call that ends the context or an ancestor. */
  lemma {:induction false} FirstEnds(nodes: seq<Node>, calls: seq<Call>, n: nat)
    ensures match Fate(nodes, calls, n)
            case None => NoneBefore(nodes, calls, |calls|, n)
            case Some(e) => exists k: nat :: EndsAt(nodes, calls, k, n, e) && NoneBefore(nodes, calls, k, n)
    decreases |calls|
  {
    hide Ending, Tree, AtOrAbove, NoneBefore;
    if calls == [] {
      NothingEnds(nodes, n);
    } else {
      var last := |calls| - 1;
      var before := calls[..last];
      FirstEnds(nodes, before, n);
      var fate := Fate(nodes, before, n);
      if fate.Some? {
        var k: nat :| EndsAt(nodes, before, k, n, fate.value) && NoneBefore(nodes, before, k, n);
        assert before[..k] == calls[..k];
        assert EndsAt(nodes, calls, k, n, fate.value);
        NoneIn(nodes, calls, last, k, n);
      } else {
        NoneIn(nodes, calls, last, last, n);
        if Fate(nodes, calls, n).Some? {
          assert EndsAt(nodes, calls, last, n, Fate(nodes, calls, n).value);
        } else {
          forall d ensures !EndsAt(nodes, calls, last, n, d) {
          }
          NoneAt(nodes, calls, last, n);
        }
      }
    }
  }

  lemma NothingEnds(nodes: seq<Node>, n: nat)
    ensures NoneBefore(nodes, [], 0, n)
  {
  }

  lemma NoneAt(nodes: seq<Node>, calls: seq<Call>, k: nat, n: nat)
    requires NoneBefore(nodes, calls, k, n) && forall d :: !EndsAt(nodes, calls, k, n, d)
    ensures NoneBefore(nodes, calls, k + 1, n)
  {
    hide EndsAt;
  }

  /** Parents come before their children. */
  ghost predicate Ordered(nodes: seq<Node>) {
    forall n :: 0 <= n < |nodes| ==>
      && (nodes[n].parent.Some? ==> nodes[n].parent.value < n)
      && (nodes[n].parent.None? <==> nodes[n].kind.EmptyCtx?)
  }

  lemma {:induction false} TreeOrdered(calls: seq<Call>)
    ensures Ordered(Tree(calls))
    decreases |calls|
  {
    hide Earlier;
    if calls != [] {
      TreeOrdered(calls[..|calls| - 1]);
    }
  }

  lemma {:induction false} SameAbove(nodes: seq<Node>, more: seq<Node>, n: nat, a: nat)
    requires nodes <= more && n < |nodes|
    ensures AtOrAbove(more, n, a) == AtOrAbove(nodes, n, a)
    decreases n
  {
    if nodes[n].parent.Some? && nodes[n].parent.value < n {
      SameAbove(nodes, more, nodes[n].parent.value, a);
    }
  }

  /** Later contexts do not change the fate of earlier ones. */
  lemma {:induction false} SameFate(nodes: seq<Node>, more: seq<Node>, calls: seq<Call>, n: nat)
    requires nodes <= more && n < |nodes|
    ensures Fate(more, calls, n) == Fate(nodes, calls, n)
    decreases |calls|
  {
    hide AtOrAbove, Ending, Tree;
    if calls != [] {
      SameFate(nodes, more, calls[..|calls| - 1], n);
      forall a: nat ensures AtOrAbove(more, n, a) == AtOrAbove(nodes, n, a) {
        SameAbove(nodes, more, n, a);
      }
    }
  }

  /** What ends is among the contexts after the call, and can be canceled. */
  lemma EndsIn(nodes: seq<Node>, call: Call)
    ensures nodes <= Grown(nodes, call)
    ensures var end := Ending(nodes, call);
      end.Some? ==>
        && end.value.0 < |Grown(nodes, call)|
        && var kind := Grown(nodes, call)[end.value.0].kind; kind.CancelCtx? || kind.TimerCtx?
  {
    hide Earlier;
  }

  /** A context shares the fate of its parent as long as no call ends it by itself: a new one, and
    * one that cannot be canceled. */
  lemma {:induction false} ParentsFate(nodes: seq<Node>, calls: seq<Call>, n: nat)
    requires Tree(calls) <= nodes && n < |nodes| && nodes[n].parent.Some? && nodes[n].parent.value < n
    requires n >= |Tree(calls)| || nodes[n].kind.ValueCtx?
    ensures Fate(nodes, calls, n) == Fate(nodes, calls, nodes[n].parent.value)
    decreases |calls|
  {
    hide Ending, Earlier, Grown;
    if calls != [] {
      var before := calls[..|calls| - 1];
      EndsIn(Tree(before), calls[|calls| - 1]);
      ParentsFate(nodes, before, n);
    }
  }

  /** Nothing ends a context without a parent. */
  lemma {:induction false} RootsFate(nodes: seq<Node>, calls: seq<Call>, n: nat)
    requires Tree(calls) <= nodes && n < |nodes| && nodes[n] == Node(EmptyCtx, None)
    ensures Fate(nodes, calls, n) == None
    decreases |calls|
  {
    hide Ending, Earlier, Grown;
    if calls != [] {
      var before := calls[..|calls| - 1];
      EndsIn(Tree(before), calls[|calls| - 1]);
      RootsFate(nodes, before, n);
    }
  }
}
