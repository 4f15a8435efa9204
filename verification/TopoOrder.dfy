// Why the counter-based sorts are right: the state invariant shared by the
// depth-first and the breadth-first sort, one step of it, and what it gives
// when nothing is pending any more.
module TopoOrder {
  import opened Links
  import opened Degrees

  const TWO32: int := 0x1_0000_0000

  // ------------------------------------------------------- counters (uint32)

  // The uint32 value of a balance between -2^32 and 2^32.
  function Wrap(b: int): int {
    if b >= 0 then b else b + TWO32
  }

  // Decrement of a uint32_t.
  function Dec(c: int): int {
    if c == 0 then TWO32 - 1 else c - 1
  }

  // Counters after decrementing once for each target that has a counter, and
  // the targets whose decrement gave zero.
  function Drained(cnt: map<Node, int>, ts: seq<Node>): map<Node, int> {
    if ts == [] then cnt
    else
      var c := Drained(cnt, Front(ts));
      if Last(ts) in c then c[Last(ts) := Dec(c[Last(ts)])] else c
  }

  function Ready(cnt: map<Node, int>, ts: seq<Node>): seq<Node> {
    if ts == [] then []
    else
      var c := Drained(cnt, Front(ts));
      Ready(cnt, Front(ts)) + if Last(ts) in c && Dec(c[Last(ts)]) == 0 then [Last(ts)] else []
  }

  lemma {:induction false} DrainedConcat(cnt: map<Node, int>, ts: seq<Node>, us: seq<Node>)
    ensures Drained(cnt, ts + us) == Drained(Drained(cnt, ts), us)
    ensures Ready(cnt, ts + us) == Ready(cnt, ts) + Ready(Drained(cnt, ts), us)
  {
    if us == [] {
      assert ts + us == ts;
    } else {
      assert Front(ts + us) == ts + Front(us);
      assert Last(ts + us) == Last(us);
      DrainedConcat(cnt, ts, Front(us));
    }
  }

  // As long as the balance of n stays above -2^32, its counter is the wrapped
  // balance and n becomes ready exactly when the balance reaches zero.
  lemma {:induction false} DrainedBalance(cnt: map<Node, int>, ts: seq<Node>, n: Node, b: int)
    requires n in cnt && cnt[n] == Wrap(b)
    requires -TWO32 < b - multiset(ts)[n] && b < TWO32
    ensures Drained(cnt, ts).Keys == cnt.Keys
    ensures Drained(cnt, ts)[n] == Wrap(b - multiset(ts)[n])
    ensures multiset(Ready(cnt, ts))[n] == if b > 0 && b - multiset(ts)[n] <= 0 then 1 else 0
  {
    if ts != [] {
      FrontLast(ts);
      DrainedBalance(cnt, Front(ts), n, b);
    }
  }

  lemma DrainedStep(cnt: map<Node, int>, ts: seq<Node>, n: Node, size: int, before: int, after: int)
    requires n in cnt && cnt[n] == Wrap(size - before) && after == before + multiset(ts)[n]
    requires -TWO32 < size - after && size - before < TWO32
    ensures n in Drained(cnt, ts) && Drained(cnt, ts)[n] == Wrap(size - after)
    ensures multiset(Ready(cnt, ts))[n] == if before < size <= after then 1 else 0
  {
    DrainedBalance(cnt, ts, n, size - before);
  }

  lemma {:induction false} ReadyIn(cnt: map<Node, int>, ts: seq<Node>)
    ensures forall n :: n in Ready(cnt, ts) ==> n in ts
  {
    if ts != [] {
      FrontLast(ts);
      ReadyIn(cnt, Front(ts));
    }
  }

  lemma {:induction false} DrainedKeys(cnt: map<Node, int>, ts: seq<Node>)
    ensures Drained(cnt, ts).Keys == cnt.Keys
    ensures forall n :: n in Ready(cnt, ts) ==> n in cnt
  {
    if ts != [] {
      DrainedKeys(cnt, Front(ts));
    }
  }

  // --------------------------------------------------------- graph conditions

  ghost predicate FedFrom(g: Links, X: set<Node>, n: Node) {
    exists m :: m in X && Feeds(g, m, n)
  }

  ghost predicate HasEntry(g: Links, X: set<Node>) {
    exists n :: n in X && !FedFrom(g, X, n)
  }

  // In every nonempty set of nodes someone has no counted predecessor.
  ghost predicate Acyclic(g: Links, nodes: seq<Node>) {
    forall X: set<Node> :: X <= NodeSet(nodes) && X != {} ==> HasEntry(g, X)
  }

  ghost predicate ClosedUnderPredecessors(g: Links, nodes: seq<Node>, X: set<Node>)
    requires X <= NodeSet(nodes)
  {
    forall m, n :: m in nodes && n in X && Feeds(g, m, n) ==> m in X
  }

  // n reaches m along counted edges: it is in every predecessor-closed set
  // that contains m.
  ghost predicate Reaches(g: Links, nodes: seq<Node>, n: Node, m: Node)
  {
    forall X: set<Node> :: X <= NodeSet(nodes) && m in X && ClosedUnderPredecessors(g, nodes, X) ==> n in X
  }

  // Every data consumer of a NextIteration node reaches that node.
  ghost predicate LoopsReturn(g: Links, nodes: seq<Node>)
  {
    forall m, n :: m in nodes && n in nodes && Looped(g, m, n) > 0 ==> Reaches(g, nodes, n, m)
  }

  // No node feeds a loop.
  predicate NoLoopNodes(nodes: seq<Node>) {
    forall m :: m in nodes ==> !IsNextIteration(m)
  }

  lemma {:induction false} NotLooped(g: Links, qs: seq<Port>, m: Node)
    requires !IsNextIteration(m)
    ensures LoopedAt(g, qs, m) == 0
  {
    if qs != [] {
      NotLooped(g, Front(qs), m);
    }
  }

  lemma NoLoopsReturn(g: Links, nodes: seq<Node>)
    requires NoLoopNodes(nodes)
    ensures LoopsReturn(g, nodes)
  {
    forall m, n | m in nodes && n in nodes ensures Looped(g, m, n) == 0 {
      NotLooped(g, InPorts(n), m);
    }
  }

  // The uint32_t counters neither truncate nor come round to zero again.
  ghost predicate CountersFit(g: Links, nodes: seq<Node>)
  {
    forall n :: n in nodes ==> InEdgeSize(g, n) < TWO32 && LoopedFrom(g, nodes, n) < TWO32
  }

  ghost predicate Sortable(g: Links, nodes: seq<Node>) {
    GraphOk(g, nodes) && CountersFit(g, nodes)
  }

  // vec lists every node once and every counted edge goes forward in it.
  ghost predicate TopologicalOrder(g: Links, nodes: seq<Node>, vec: seq<Node>)
  {
    && multiset(vec) == multiset(nodes)
    && (forall n :: n in vec ==> n in nodes)
    && forall i, j :: 0 <= i < |vec| && 0 <= j < |vec| && Feeds(g, vec[i], vec[j]) ==> i < j
  }

  // ------------------------------------------------------------- the invariant

  ghost function WeightFrom(g: Links, vec: seq<Node>, n: Node): nat
  {
    if vec == [] then 0 else WeightFrom(g, Front(vec), n) + Weight(g, Last(vec), n)
  }

  ghost predicate Members(nodes: seq<Node>, vec: seq<Node>, pending: multiset<Node>) {
    multiset(vec) + pending <= multiset(nodes)
  }

  ghost predicate CountersAgree(g: Links, nodes: seq<Node>, vec: seq<Node>, cnt: map<Node, int>)
  {
    && cnt.Keys == NodeSet(nodes)
    && forall n :: n in nodes ==> cnt[n] == Wrap(InEdgeSize(g, n) - WeightFrom(g, vec, n))
  }

  // A node has been reached exactly when its counted in-edges are used up.
  ghost predicate Released(g: Links, nodes: seq<Node>, vec: seq<Node>, pending: multiset<Node>)
  {
    forall n :: n in nodes ==> (n in vec || n in pending <==> InEdgeSize(g, n) <= WeightFrom(g, vec, n))
  }

  // The counted predecessors of an emitted node come before it, those of a
  // pending node are emitted.
  ghost predicate Ordered(g: Links, nodes: seq<Node>, vec: seq<Node>, pending: multiset<Node>)
  {
    && PredecessorsFirst(g, nodes, vec)
    && (forall n, m :: n in pending && n in nodes && m in nodes && Feeds(g, m, n) ==> m in vec)
  }

  ghost predicate SortInv(g: Links, nodes: seq<Node>, vec: seq<Node>, pending: multiset<Node>, cnt: map<Node, int>)
  {
    && Members(nodes, vec, pending)
    && (forall m :: m in vec ==> m in nodes)
    && CountersAgree(g, nodes, vec, cnt)
    && Released(g, nodes, vec, pending)
    && (LoopsReturn(g, nodes) ==> Ordered(g, nodes, vec, pending))
  }

  // -------------------------------------------------------------- sums

  lemma {:induction false} WeightFromSplits(g: Links, nodes: seq<Node>, vec: seq<Node>, n: Node)
    requires GraphOk(g, nodes) && n in nodes && forall m :: m in vec ==> m in nodes
    ensures WeightFrom(g, vec, n) == CountedFrom(g, vec, n) + LoopedFrom(g, vec, n)
  {
    if vec != [] {
      WeightFromSplits(g, nodes, Front(vec), n);
      WeightSplits(g, nodes, Last(vec), n);
    }
  }

  // Removing one occurrence of x from the list of sources.
  lemma {:induction false} FromWithout(g: Links, ms: seq<Node>, x: Node, n: Node)
    requires x in ms
    ensures CountedFrom(g, ms, n) == CountedFrom(g, RemoveFirst(ms, x), n) + Counted(g, x, n)
    ensures LoopedFrom(g, ms, n) == LoopedFrom(g, RemoveFirst(ms, x), n) + Looped(g, x, n)
  {
    FrontLast(ms);
    if x in Front(ms) {
      RemoveFirstFront(Front(ms), Last(ms), x);
      FromWithout(g, Front(ms), x, n);
      var r := RemoveFirst(ms, x);
      assert Front(r) == RemoveFirst(Front(ms), x) && Last(r) == Last(ms);
    } else {
      RemoveFirstLast(Front(ms), x);
    }
  }

  lemma {:induction false} RemoveFirstFront<T>(s: seq<T>, y: T, x: T)
    requires x in s
    ensures RemoveFirst(s + [y], x) == RemoveFirst(s, x) + [y]
  {
    if s[0] != x {
      assert (s + [y])[1..] == s[1..] + [y];
      RemoveFirstFront(s[1..], y, x);
    }
  }

  lemma {:induction false} RemoveFirstLast<T>(s: seq<T>, x: T)
    requires x !in s
    ensures RemoveFirst(s + [x], x) == s
  {
    if s != [] {
      assert (s + [x])[1..] == s[1..] + [x];
      RemoveFirstLast(s[1..], x);
    }
  }

  // Sums over part of the nodes are bounded by the sum over all of them, and
  // reach it only if every remaining source contributes nothing.
  lemma {:induction false} FromPart(g: Links, nodes: seq<Node>, vec: seq<Node>, n: Node)
    requires multiset(vec) <= multiset(nodes)
    ensures CountedFrom(g, vec, n) <= CountedFrom(g, nodes, n)
    ensures LoopedFrom(g, vec, n) <= LoopedFrom(g, nodes, n)
    ensures CountedFrom(g, vec, n) == CountedFrom(g, nodes, n) ==>
      forall m :: m in multiset(nodes) - multiset(vec) ==> !Feeds(g, m, n)
    decreases |nodes|
  {
    if vec == [] {
      FromAll(g, nodes, n);
    } else {
      var x := Last(vec);
      FrontLast(vec);
      assert x in multiset(nodes);
      FromWithout(g, nodes, x, n);
      RemoveFirstMultiset(nodes, x);
      RemoveFirstElements(nodes, x);
      assert multiset(vec) == multiset(Front(vec)) + multiset{x};
      FromPart(g, RemoveFirst(nodes, x), Front(vec), n);
      assert multiset(nodes) - multiset(vec) == multiset(RemoveFirst(nodes, x)) - multiset(Front(vec));
    }
  }

  lemma {:induction false} FromAll(g: Links, ms: seq<Node>, n: Node)
    ensures 0 <= CountedFrom(g, ms, n)
    ensures CountedFrom(g, ms, n) == 0 ==> forall m :: m in ms ==> !Feeds(g, m, n)
  {
    if ms != [] {
      FromAll(g, Front(ms), n);
      CountedNonNegative(g, InPorts(n), Last(ms));
      FrontLast(ms);
    }
  }

  lemma {:induction false} LoopedFromPositive(g: Links, ms: seq<Node>, n: Node) returns (m: Node)
    requires LoopedFrom(g, ms, n) > 0
    ensures m in ms && Looped(g, m, n) > 0
  {
    if Looped(g, Last(ms), n) > 0 {
      m := Last(ms);
    } else {
      m := LoopedFromPositive(g, Front(ms), n);
    }
  }

  // ------------------------------------------------------------- the proofs

  lemma MembersOnce(nodes: seq<Node>, vec: seq<Node>, pending: multiset<Node>, n: Node)
    requires Distinct(nodes) && Members(nodes, vec, pending)
    ensures multiset(vec)[n] + pending[n] <= if n in nodes then 1 else 0
  {
    DistinctOnce(nodes, n);
    assert (multiset(vec) + pending)[n] <= multiset(nodes)[n];
  }

  // The balance of every node stays in the range of its counter.
  lemma BalanceInRange(g: Links, nodes: seq<Node>, vec: seq<Node>, n: Node)
    requires Sortable(g, nodes) && n in nodes && multiset(vec) <= multiset(nodes)
    requires forall m :: m in vec ==> m in nodes
    ensures -TWO32 < InEdgeSize(g, n) - WeightFrom(g, vec, n) < TWO32
  {
    WeightFromSplits(g, nodes, vec, n);
    InEdgeSizeCounts(g, nodes, n);
    FromPart(g, nodes, vec, n);
  }

  ghost predicate PredecessorsFirst(g: Links, nodes: seq<Node>, vec: seq<Node>)
  {
    forall j, m :: 0 <= j < |vec| && vec[j] in nodes && m in nodes && Feeds(g, m, vec[j]) ==> m in vec[..j]
  }

  // Once a NextIteration node is emitted, so are all its data consumers.
  lemma LoopReturned(g: Links, nodes: seq<Node>, vec: seq<Node>, n: Node, m: Node)
    requires GraphOk(g, nodes) && LoopsReturn(g, nodes) && n in nodes
    requires (forall x :: x in vec ==> x in nodes) && PredecessorsFirst(g, nodes, vec)
    requires m in vec && Looped(g, m, n) > 0
    ensures n in vec
  {
    var X := NodeSet(vec);
    assert ClosedUnderPredecessors(g, nodes, X) by {
      forall x, y | x in nodes && y in X && Feeds(g, x, y) ensures x in X {
        var j :| 0 <= j < |vec| && vec[j] == y;
        assert x in vec[..j];
      }
    }
    assert Reaches(g, nodes, n, m);
  }

  // A node released while unemitted has all its counted predecessors
  // emitted: had a loop edge contributed, it would have been emitted before.
  lemma ReleasedPredecessors(g: Links, nodes: seq<Node>, vec: seq<Node>, n: Node, m: Node)
    requires Sortable(g, nodes) && LoopsReturn(g, nodes)
    requires n in nodes && n !in vec && multiset(vec) <= multiset(nodes)
    requires (forall x :: x in vec ==> x in nodes) && PredecessorsFirst(g, nodes, vec)
    requires InEdgeSize(g, n) <= WeightFrom(g, vec, n)
    requires m in nodes && Feeds(g, m, n)
    ensures m in vec
  {
    WeightFromSplits(g, nodes, vec, n);
    if LoopedFrom(g, vec, n) > 0 {
      var x := LoopedFromPositive(g, vec, n);
      LoopReturned(g, nodes, vec, n, x);
    }
    InEdgeSizeCounts(g, nodes, n);
    FromPart(g, nodes, vec, n);
    assert m in vec || m in multiset(nodes) - multiset(vec);
  }

  lemma NoPredecessor(g: Links, nodes: seq<Node>, n: Node, m: Node)
    requires GraphOk(g, nodes) && n in nodes && m in nodes && InEdgeSize(g, n) == 0
    ensures !Feeds(g, m, n)
  {
    InEdgeSizeCounts(g, nodes, n);
    FromAll(g, nodes, n);
  }

  // Start: nothing emitted, exactly the nodes without counted in-edges pending.
  lemma StartInv(g: Links, nodes: seq<Node>, pending: multiset<Node>, cnt: map<Node, int>)
    requires Sortable(g, nodes)
    requires forall n :: pending[n] == if n in nodes && InEdgeSize(g, n) == 0 then 1 else 0
    requires cnt.Keys == NodeSet(nodes) && forall n :: n in nodes ==> cnt[n] == InEdgeSize(g, n)
    ensures SortInv(g, nodes, [], pending, cnt)
  {
    forall n, m | n in pending && m in nodes ensures !Feeds(g, m, n) {
      NoPredecessor(g, nodes, n, m);
    }
    assert forall n :: pending[n] <= multiset(nodes)[n];
  }

  lemma Extended(nodes: seq<Node>, vec: seq<Node>, pending: multiset<Node>, m: Node)
    requires Members(nodes, vec, pending) && m in pending
    ensures multiset(vec) <= multiset(nodes)
    ensures multiset(vec + [m]) <= multiset(nodes)
  {
    assert multiset(vec) <= multiset(vec) + pending;
    assert multiset(vec + [m]) <= multiset(vec) + pending;
  }

  lemma WeightFromLast(g: Links, vec: seq<Node>, m: Node, n: Node)
    ensures WeightFrom(g, vec + [m], n) == WeightFrom(g, vec, n) + Weight(g, m, n)
  {
    assert Front(vec + [m]) == vec;
  }

  lemma StepRange(g: Links, nodes: seq<Node>, vec: seq<Node>, pending: multiset<Node>, m: Node, n: Node)
    requires Sortable(g, nodes) && Members(nodes, vec, pending)
    requires (forall x :: x in vec ==> x in nodes) && m in pending && m in nodes && n in nodes
    ensures -TWO32 < InEdgeSize(g, n) - WeightFrom(g, vec + [m], n)
    ensures InEdgeSize(g, n) - WeightFrom(g, vec, n) < TWO32
  {
    Extended(nodes, vec, pending, m);
    BalanceInRange(g, nodes, vec, n);
    BalanceInRange(g, nodes, vec + [m], n);
  }

  // One step for one node: emitting m drains ts, the targets of m.
  lemma StepNode(g: Links, nodes: seq<Node>, vec: seq<Node>, pending: multiset<Node>, cnt: map<Node, int>,
                 m: Node, ts: seq<Node>, n: Node)
    requires Sortable(g, nodes) && Members(nodes, vec, pending) && CountersAgree(g, nodes, vec, cnt)
    requires (forall x :: x in vec ==> x in nodes) && m in pending && m in nodes
    requires n in nodes && multiset(ts)[n] == Weight(g, m, n)
    ensures WeightFrom(g, vec + [m], n) == WeightFrom(g, vec, n) + Weight(g, m, n)
    ensures n in Drained(cnt, ts) && Drained(cnt, ts)[n] == Wrap(InEdgeSize(g, n) - WeightFrom(g, vec + [m], n))
    ensures multiset(Ready(cnt, ts))[n] ==
      if WeightFrom(g, vec, n) < InEdgeSize(g, n) <= WeightFrom(g, vec + [m], n) then 1 else 0
  {
    StepRange(g, nodes, vec, pending, m, n);
    WeightFromLast(g, vec, m, n);
    DrainedStep(cnt, ts, n, InEdgeSize(g, n), WeightFrom(g, vec, n), WeightFrom(g, vec + [m], n));
  }

  ghost predicate TargetsOk(g: Links, nodes: seq<Node>, m: Node, ts: seq<Node>)
  {
    && (forall n :: n in ts ==> n in nodes)
    && (forall n :: n in nodes ==> multiset(ts)[n] == Weight(g, m, n))
  }

  lemma StepMember(g: Links, nodes: seq<Node>, vec: seq<Node>, pending: multiset<Node>, cnt: map<Node, int>,
                   m: Node, ts: seq<Node>, n: Node)
    requires Sortable(g, nodes) && SortInv(g, nodes, vec, pending, cnt) && m in pending && m in nodes
    requires TargetsOk(g, nodes, m, ts)
    ensures multiset(vec)[n] + pending[n] + multiset(Ready(cnt, ts))[n] <= multiset(nodes)[n]
  {
    MembersOnce(nodes, vec, pending, n);
    DistinctOnce(nodes, n);
    if n in nodes {
      StepNode(g, nodes, vec, pending, cnt, m, ts, n);
      assert Released(g, nodes, vec, pending);
    } else {
      DrainedKeys(cnt, ts);
      assert n !in Ready(cnt, ts);
    }
  }

  lemma MoveOne<T>(a: multiset<T>, p: multiset<T>, r: multiset<T>, all: multiset<T>, m: T)
    requires m in p && forall n :: a[n] + p[n] + r[n] <= all[n]
    ensures a + multiset{m} + (p - multiset{m} + r) <= all
  {
    forall n ensures (a + multiset{m} + (p - multiset{m} + r))[n] <= all[n] {
      assert a[n] + p[n] + r[n] <= all[n];
    }
  }

  lemma StepMembers(g: Links, nodes: seq<Node>, vec: seq<Node>, pending: multiset<Node>, cnt: map<Node, int>,
                    m: Node, ts: seq<Node>)
    requires Sortable(g, nodes) && SortInv(g, nodes, vec, pending, cnt) && m in pending && m in nodes
    requires TargetsOk(g, nodes, m, ts)
    ensures Members(nodes, vec + [m], pending - multiset{m} + multiset(Ready(cnt, ts)))
  {
    var ready := multiset(Ready(cnt, ts));
    forall n ensures multiset(vec)[n] + pending[n] + ready[n] <= multiset(nodes)[n] {
      StepMember(g, nodes, vec, pending, cnt, m, ts, n);
    }
    MoveOne(multiset(vec), pending, ready, multiset(nodes), m);
    assert multiset(vec + [m]) == multiset(vec) + multiset{m};
  }

  lemma StepReleasedAt(g: Links, nodes: seq<Node>, vec: seq<Node>, pending: multiset<Node>, cnt: map<Node, int>,
                       m: Node, ts: seq<Node>, n: Node)
    requires Sortable(g, nodes) && SortInv(g, nodes, vec, pending, cnt) && m in pending && m in nodes
    requires TargetsOk(g, nodes, m, ts) && n in nodes
    ensures n in vec + [m] || n in pending - multiset{m} + multiset(Ready(cnt, ts)) <==>
      InEdgeSize(g, n) <= WeightFrom(g, vec + [m], n)
  {
    StepNode(g, nodes, vec, pending, cnt, m, ts, n);
    MembersOnce(nodes, vec, pending, m);
    assert n in vec || n in pending <==> InEdgeSize(g, n) <= WeightFrom(g, vec, n);
    assert n in pending - multiset{m} <==> n in pending && n != m;
  }

  lemma StepReleased(g: Links, nodes: seq<Node>, vec: seq<Node>, pending: multiset<Node>, cnt: map<Node, int>,
                     m: Node, ts: seq<Node>)
    requires Sortable(g, nodes) && SortInv(g, nodes, vec, pending, cnt) && m in pending && m in nodes
    requires TargetsOk(g, nodes, m, ts)
    ensures Released(g, nodes, vec + [m], pending - multiset{m} + multiset(Ready(cnt, ts)))
  {
    forall n | n in nodes
      ensures n in vec + [m] || n in pending - multiset{m} + multiset(Ready(cnt, ts)) <==>
        InEdgeSize(g, n) <= WeightFrom(g, vec + [m], n)
    {
      StepReleasedAt(g, nodes, vec, pending, cnt, m, ts, n);
    }
  }

  lemma StepCounters(g: Links, nodes: seq<Node>, vec: seq<Node>, pending: multiset<Node>, cnt: map<Node, int>,
                     m: Node, ts: seq<Node>)
    requires Sortable(g, nodes) && SortInv(g, nodes, vec, pending, cnt) && m in pending && m in nodes
    requires TargetsOk(g, nodes, m, ts)
    ensures CountersAgree(g, nodes, vec + [m], Drained(cnt, ts))
  {
    DrainedKeys(cnt, ts);
    forall n | n in nodes ensures Drained(cnt, ts)[n] == Wrap(InEdgeSize(g, n) - WeightFrom(g, vec + [m], n)) {
      StepNode(g, nodes, vec, pending, cnt, m, ts, n);
    }
  }

  lemma StepPending(g: Links, nodes: seq<Node>, vec: seq<Node>, pending: multiset<Node>, cnt: map<Node, int>,
                    m: Node, ts: seq<Node>, n: Node, x: Node)
    requires Sortable(g, nodes) && SortInv(g, nodes, vec, pending, cnt) && m in pending && m in nodes
    requires TargetsOk(g, nodes, m, ts) && n in nodes && x in nodes && Feeds(g, x, n)
    requires n in Ready(cnt, ts)
    requires LoopsReturn(g, nodes) && PredecessorsFirst(g, nodes, vec + [m])
    ensures x in vec + [m]
  {
    assert n in multiset(Ready(cnt, ts));
    StepNode(g, nodes, vec, pending, cnt, m, ts, n);
    assert Released(g, nodes, vec, pending);
    Extended(nodes, vec, pending, m);
    ReleasedPredecessors(g, nodes, vec + [m], n, x);
  }

  lemma StepPredecessorsFirst(g: Links, nodes: seq<Node>, vec: seq<Node>, pending: multiset<Node>, m: Node)
    requires Ordered(g, nodes, vec, pending) && m in pending
    ensures PredecessorsFirst(g, nodes, vec + [m])
  {
    var vec' := vec + [m];
    forall j, x | 0 <= j < |vec'| && vec'[j] in nodes && x in nodes && Feeds(g, x, vec'[j]) ensures x in vec'[..j] {
      assert vec'[..j] == vec[..j];
      assert vec[..|vec|] == vec;
    }
  }

  lemma StepOrdered(g: Links, nodes: seq<Node>, vec: seq<Node>, pending: multiset<Node>, cnt: map<Node, int>,
                    m: Node, ts: seq<Node>)
    requires Sortable(g, nodes) && SortInv(g, nodes, vec, pending, cnt) && m in pending && m in nodes
    requires TargetsOk(g, nodes, m, ts) && LoopsReturn(g, nodes)
    ensures Ordered(g, nodes, vec + [m], pending - multiset{m} + multiset(Ready(cnt, ts)))
  {
    StepPredecessorsFirst(g, nodes, vec, pending, m);
    var after := pending - multiset{m} + multiset(Ready(cnt, ts));
    forall n, x | n in after && n in nodes && x in nodes && Feeds(g, x, n) ensures x in vec + [m] {
      if n in pending {
        assert x in vec;
      } else {
        StepPending(g, nodes, vec, pending, cnt, m, ts, n, x);
      }
    }
  }

  lemma StepInv(g: Links, nodes: seq<Node>, vec: seq<Node>, pending: multiset<Node>, cnt: map<Node, int>,
                m: Node, ts: seq<Node>)
    requires Sortable(g, nodes) && SortInv(g, nodes, vec, pending, cnt) && m in pending && m in nodes
    requires TargetsOk(g, nodes, m, ts)
    ensures SortInv(g, nodes, vec + [m], pending - multiset{m} + multiset(Ready(cnt, ts)), Drained(cnt, ts))
  {
    StepMembers(g, nodes, vec, pending, cnt, m, ts);
    StepReleased(g, nodes, vec, pending, cnt, m, ts);
    StepCounters(g, nodes, vec, pending, cnt, m, ts);
    if LoopsReturn(g, nodes) {
      StepOrdered(g, nodes, vec, pending, cnt, m, ts);
    }
  }

  // -------------------------------------------------------------- the end

  // A node left out at the end has a counted predecessor that is left out.
  lemma LeftOutHasPredecessor(g: Links, nodes: seq<Node>, vec: seq<Node>, cnt: map<Node, int>, n: Node)
    returns (m: Node)
    requires Sortable(g, nodes) && SortInv(g, nodes, vec, multiset{}, cnt) && n in nodes && n !in vec
    ensures m in nodes && m !in vec && Feeds(g, m, n)
  {
    WeightFromSplits(g, nodes, vec, n);
    InEdgeSizeCounts(g, nodes, n);
    assert multiset(vec) + multiset{} == multiset(vec);
    FromPart(g, nodes, vec, n);
    LeftOutSource(g, nodes, vec, n);
    m :| m in multiset(nodes) - multiset(vec) && Feeds(g, m, n);
    DistinctOnce(nodes, m);
  }

  lemma {:induction false} LeftOutSource(g: Links, nodes: seq<Node>, vec: seq<Node>, n: Node)
    requires multiset(vec) <= multiset(nodes)
    requires CountedFrom(g, vec, n) < CountedFrom(g, nodes, n)
    ensures exists m :: m in multiset(nodes) - multiset(vec) && Feeds(g, m, n)
    decreases |nodes|
  {
    if vec == [] {
      var m := SomeSource(g, nodes, n);
      assert m in multiset(nodes) - multiset(vec);
    } else {
      var x := Last(vec);
      FrontLast(vec);
      assert x in multiset(nodes);
      FromWithout(g, nodes, x, n);
      RemoveFirstMultiset(nodes, x);
      RemoveFirstElements(nodes, x);
      assert multiset(vec) == multiset(Front(vec)) + multiset{x};
      LeftOutSource(g, RemoveFirst(nodes, x), Front(vec), n);
      assert multiset(nodes) - multiset(vec) == multiset(RemoveFirst(nodes, x)) - multiset(Front(vec));
    }
  }

  lemma {:induction false} SomeSource(g: Links, ms: seq<Node>, n: Node) returns (m: Node)
    requires CountedFrom(g, ms, n) > 0
    ensures m in ms && Feeds(g, m, n)
  {
    if Counted(g, Last(ms), n) > 0 {
      m := Last(ms);
    } else {
      m := SomeSource(g, Front(ms), n);
    }
  }

  lemma EmittedAll(nodes: seq<Node>, vec: seq<Node>)
    requires multiset(vec) <= multiset(nodes) && |vec| == |nodes|
    ensures multiset(vec) == multiset(nodes)
  {
    var rest := multiset(nodes) - multiset(vec);
    assert multiset(nodes) == multiset(vec) + rest;
    assert |multiset(nodes)| == |nodes| && |multiset(vec)| == |vec|;
  }

  lemma EmittedNotAll(nodes: seq<Node>, vec: seq<Node>) returns (n: Node)
    requires multiset(vec) <= multiset(nodes) && |vec| != |nodes| && Distinct(nodes)
    ensures n in nodes && n !in vec
  {
    var rest := multiset(nodes) - multiset(vec);
    assert multiset(nodes) == multiset(vec) + rest;
    assert |multiset(nodes)| == |nodes| && |multiset(vec)| == |vec|;
    n :| n in rest;
    DistinctOnce(nodes, n);
  }

  lemma LeftOutIsFed(g: Links, nodes: seq<Node>, vec: seq<Node>, cnt: map<Node, int>, X: set<Node>, n: Node)
    requires Sortable(g, nodes) && SortInv(g, nodes, vec, multiset{}, cnt)
    requires forall x :: x in nodes && x !in vec ==> x in X
    requires n in nodes && n !in vec
    ensures FedFrom(g, X, n)
  {
    var m := LeftOutHasPredecessor(g, nodes, vec, cnt, n);
    assert m in X;
  }

  lemma NoEntry(g: Links, nodes: seq<Node>, X: set<Node>)
    requires X <= NodeSet(nodes) && X != {}
    requires forall n {:trigger FedFrom(g, X, n)} :: n in X ==> FedFrom(g, X, n)
    ensures !Acyclic(g, nodes)
  {
    assert !HasEntry(g, X);
  }

  lemma LeftOutIsCyclic(g: Links, nodes: seq<Node>, vec: seq<Node>, cnt: map<Node, int>, X: set<Node>)
    requires Sortable(g, nodes) && SortInv(g, nodes, vec, multiset{}, cnt)
    requires X == (set n | n in nodes && n !in vec) && X != {}
    ensures !Acyclic(g, nodes)
  {
    forall n {:trigger FedFrom(g, X, n)} | n in X ensures FedFrom(g, X, n) {
      LeftOutIsFed(g, nodes, vec, cnt, X, n);
    }
    NoEntry(g, nodes, X);
  }

  lemma EmittedInOrder(g: Links, nodes: seq<Node>, vec: seq<Node>, cnt: map<Node, int>)
    requires Sortable(g, nodes) && SortInv(g, nodes, vec, multiset{}, cnt)
    requires multiset(vec) == multiset(nodes) && LoopsReturn(g, nodes)
    ensures TopologicalOrder(g, nodes, vec)
  {
    forall i, j | 0 <= i < |vec| && 0 <= j < |vec| && Feeds(g, vec[i], vec[j]) ensures i < j {
      assert vec[i] in vec[..j];
      var k :| 0 <= k < j && vec[k] == vec[i];
      DistinctOfMultiset(nodes, vec);
    }
  }

  lemma {:induction false} TwiceCounted<T>(s: seq<T>, i: nat, j: nat)
    requires i < j < |s| && s[i] == s[j]
    ensures multiset(s)[s[i]] >= 2
  {
    assert s == s[..j] + [s[j]] + s[j + 1..];
    assert s[i] in s[..j];
  }

  lemma DistinctOfMultiset<T>(s: seq<T>, t: seq<T>)
    requires Distinct(s) && multiset(s) == multiset(t)
    ensures Distinct(t)
  {
    forall i, j | 0 <= i < j < |t| ensures t[i] != t[j] {
      DistinctOnce(s, t[i]);
      if t[i] == t[j] {
        TwiceCounted(t, i, j);
      }
    }
  }

  lemma OrderedIsAcyclic(g: Links, nodes: seq<Node>, vec: seq<Node>)
    requires TopologicalOrder(g, nodes, vec)
    ensures Acyclic(g, nodes)
  {
    forall X: set<Node> | X <= NodeSet(nodes) && X != {}
      ensures HasEntry(g, X)
    {
      var i := FirstIn(vec, X);
      forall m | m in X ensures !Feeds(g, m, vec[i]) {
        CountedNonNegative(g, InPorts(vec[i]), m);
        assert m in multiset(nodes);
        var k :| 0 <= k < |vec| && vec[k] == m;
      }
    }
  }

  lemma FirstIn(vec: seq<Node>, X: set<Node>) returns (i: nat)
    requires X != {} && forall n :: n in X ==> n in multiset(vec)
    ensures i < |vec| && vec[i] in X && forall k :: 0 <= k < i ==> vec[k] !in X
  {
    var x :| x in X;
    assert x in vec;
    i := 0;
    while vec[i] !in X
      invariant i < |vec| && forall k :: 0 <= k < i ==> vec[k] !in X
      invariant exists k :: i <= k < |vec| && vec[k] == x
      decreases |vec| - i
    {
      i := i + 1;
    }
  }

  lemma EndIncomplete(g: Links, nodes: seq<Node>, vec: seq<Node>, cnt: map<Node, int>)
    requires Sortable(g, nodes) && SortInv(g, nodes, vec, multiset{}, cnt)
    requires |vec| != |nodes|
    ensures !Acyclic(g, nodes)
  {
    assert multiset(vec) + multiset{} == multiset(vec);
    var n := EmittedNotAll(nodes, vec);
    var X := set x | x in nodes && x !in vec;
    assert n in X;
    LeftOutIsCyclic(g, nodes, vec, cnt, X);
  }

  lemma EndComplete(g: Links, nodes: seq<Node>, vec: seq<Node>, cnt: map<Node, int>)
    requires Sortable(g, nodes) && SortInv(g, nodes, vec, multiset{}, cnt)
    requires |vec| == |nodes|
    ensures multiset(vec) == multiset(nodes)
    ensures LoopsReturn(g, nodes) ==> TopologicalOrder(g, nodes, vec) && Acyclic(g, nodes)
  {
    assert multiset(vec) + multiset{} == multiset(vec);
    EmittedAll(nodes, vec);
    if LoopsReturn(g, nodes) {
      EmittedInOrder(g, nodes, vec, cnt);
      OrderedIsAcyclic(g, nodes, vec);
    }
  }

  // With nothing pending, everything has been emitted if the counted edges
  // have no cycle. When loops return, the converse holds as well, and what was
  // emitted is in order.
  lemma EndInv(g: Links, nodes: seq<Node>, vec: seq<Node>, cnt: map<Node, int>)
    requires Sortable(g, nodes) && SortInv(g, nodes, vec, multiset{}, cnt)
    ensures Acyclic(g, nodes) ==> |vec| == |nodes|
    ensures |vec| == |nodes| ==> multiset(vec) == multiset(nodes)
    ensures |vec| == |nodes| && LoopsReturn(g, nodes) ==> TopologicalOrder(g, nodes, vec) && Acyclic(g, nodes)
  {
    if |vec| == |nodes| {
      EndComplete(g, nodes, vec, cnt);
    } else {
      EndIncomplete(g, nodes, vec, cnt);
    }
  }
}
