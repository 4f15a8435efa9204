// Edge counting. The sorts count the edges of a node on its in side and
// consume them through the out side of its predecessors; this module shows
// that, for mirrored peer lists, both sides count the same edges.
module Degrees {
  import opened Links

  predicate IsNextIteration(n: Node) {
    n.kind == "NextIteration" || n.kind == "RefNextIteration"
  }

  function InPorts(n: Node): (r: seq<Port>)
    ensures |r| == n.inputs + 1
  {
    seq(n.inputs + 1, i requires 0 <= i <= n.inputs => if i < n.inputs then InData(n, i) else InCtrl(n))
  }

  function OutPorts(n: Node): (r: seq<Port>)
    ensures |r| == n.outputs + 1
  {
    seq(n.outputs + 1, i requires 0 <= i <= n.outputs => if i < n.outputs then OutData(n, i) else OutCtrl(n))
  }

  predicate IsPort(p: Port) {
    match p
    case InData(n, i) => i < n.inputs
    case OutData(n, i) => i < n.outputs
    case _ => true
  }

  lemma PortsOfNode(n: Node)
    ensures Distinct(InPorts(n)) && Distinct(OutPorts(n))
    ensures forall p: Port {:trigger p in InPorts(n)} :: p in InPorts(n) <==> p.IsIn() && p.node == n && IsPort(p)
    ensures forall p: Port {:trigger p in OutPorts(n)} :: p in OutPorts(n) <==> p.IsOut() && p.node == n && IsPort(p)
  {
    forall p: Port | p.IsIn() && p.node == n && IsPort(p) ensures p in InPorts(n) {
      assert InPorts(n)[if p.InData? then p.idx else n.inputs] == p;
    }
    forall p: Port | p.IsOut() && p.node == n && IsPort(p) ensures p in OutPorts(n) {
      assert OutPorts(n)[if p.OutData? then p.idx else n.outputs] == p;
    }
  }

  ghost predicate HasPorts(g: Links, n: Node) {
    (forall p {:trigger p in InPorts(n)} :: p in InPorts(n) ==> p in g) &&
    (forall p {:trigger p in OutPorts(n)} :: p in OutPorts(n) ==> p in g)
  }

  // The nodes of one graph: all their ports are in the state and every edge
  // stays inside the graph.
  ghost predicate GraphOk(g: Links, nodes: seq<Node>) {
    && WellLinked(g) && Distinct(nodes)
    && (forall p :: p in g ==> IsPort(p))
    && (forall n :: n in nodes ==> HasPorts(g, n))
    && (forall p, q {:trigger q in g[p]} :: p in g && p.node in nodes && q in g[p] ==> q.node in nodes)
  }

  // Number of entries of s owned by n.
  function Hits(s: seq<Port>, n: Node): nat {
    if s == [] then 0 else Hits(Front(s), n) + if Last(s).node == n then 1 else 0
  }

  // The data edge into q that leaves a NextIteration node m: only the first
  // peer of a data input is looked at.
  function Back(g: Links, q: Port, m: Node): nat
  {
    if q.InData? && At(g, q) != [] && At(g, q)[0].OutData? && At(g, q)[0].node == m && IsNextIteration(m) then 1 else 0
  }

  // Edges from m arriving at the in ports qs: counted ones and loop ones.
  function CountedAt(g: Links, qs: seq<Port>, m: Node): int
  {
    if qs == [] then 0
    else CountedAt(g, Front(qs), m) + Hits(At(g, Last(qs)), m) - Back(g, Last(qs), m)
  }

  function LoopedAt(g: Links, qs: seq<Port>, m: Node): nat
  {
    if qs == [] then 0 else LoopedAt(g, Front(qs), m) + Back(g, Last(qs), m)
  }

  // Edges leaving the out ports ps towards n.
  function LeavingTo(g: Links, ps: seq<Port>, n: Node): nat
  {
    if ps == [] then 0 else LeavingTo(g, Front(ps), n) + Hits(At(g, Last(ps)), n)
  }

  function Counted(g: Links, m: Node, n: Node): int
  {
    CountedAt(g, InPorts(n), m)
  }

  // m has a counted edge to n.
  predicate Feeds(g: Links, m: Node, n: Node) {
    Counted(g, m, n) > 0
  }

  function Looped(g: Links, m: Node, n: Node): nat
  {
    LoopedAt(g, InPorts(n), m)
  }

  function Weight(g: Links, m: Node, n: Node): nat
  {
    LeavingTo(g, OutPorts(m), n)
  }

  // What GetInEdgeSize adds up for the in ports qs.
  function InSize(g: Links, q: Port): (r: nat)
  {
    var s := At(g, q);
    |s| - if q.InData? && s != [] && s[0].OutData? && IsNextIteration(s[0].node) then 1 else 0
  }

  function InSizes(g: Links, qs: seq<Port>): nat
  {
    if qs == [] then 0 else InSizes(g, Front(qs)) + InSize(g, Last(qs))
  }

  function InEdgeSize(g: Links, n: Node): nat
  {
    InSizes(g, InPorts(n))
  }

  // --------------------------------------------- out side equals in side

  function Row(s: seq<Port>, qs: seq<Port>): nat {
    if qs == [] then 0 else Row(s, Front(qs)) + multiset(s)[Last(qs)]
  }

  function Cross(g: Links, ps: seq<Port>, qs: seq<Port>): nat
  {
    if ps == [] then 0 else Cross(g, Front(ps), qs) + Row(At(g, Last(ps)), qs)
  }

  lemma {:induction false} RowAdd(s: seq<Port>, x: Port, qs: seq<Port>)
    ensures Row(s + [x], qs) == Row(s, qs) + multiset(qs)[x]
  {
    if qs != [] {
      RowAdd(s, x, Front(qs));
      FrontLast(qs);
    }
  }

  lemma {:induction false} RowEmpty(qs: seq<Port>)
    ensures Row([], qs) == 0
  {
    if qs != [] {
      RowEmpty(Front(qs));
    }
  }

  lemma {:induction false} DistinctOnce<T>(s: seq<T>, x: T)
    requires Distinct(s)
    ensures multiset(s)[x] == if x in s then 1 else 0
  {
    if s != [] {
      FrontLast(s);
      DistinctOnce(Front(s), x);
    }
  }

  lemma {:induction false} HitsIsRow(s: seq<Port>, qs: seq<Port>, n: Node)
    requires Distinct(qs)
    requires forall x :: x in s ==> (x in qs <==> x.node == n)
    ensures Hits(s, n) == Row(s, qs)
  {
    if s == [] {
      RowEmpty(qs);
    } else {
      FrontLast(s);
      HitsIsRow(Front(s), qs, n);
      RowAdd(Front(s), Last(s), qs);
      DistinctOnce(qs, Last(s));
    }
  }

  lemma AtSymmetric(g: Links, p: Port, q: Port)
    requires WellLinked(g)
    ensures multiset(At(g, p))[q] == multiset(At(g, q))[p]
  {
    if p in g && q in g {
      assert Mult(g, p, q) == Mult(g, q, p);
    } else {
      assert p in g ==> q !in g[p];
      assert q in g ==> p !in g[q];
    }
  }

  lemma OwnPort(g: Links, n: Node, p: Port)
    requires HasPorts(g, n) && p.node == n && IsPort(p)
    ensures p in g
  {
    PortsOfNode(n);
    assert p in InPorts(n) || p in OutPorts(n);
  }

  lemma {:induction false} CrossColumn(g: Links, qs: seq<Port>, ps: seq<Port>, p: Port)
    requires WellLinked(g)
    ensures Cross(g, qs, ps + [p]) == Cross(g, qs, ps) + Row(At(g, p), qs)
  {
    if qs != [] {
      var q := Last(qs);
      CrossColumn(g, Front(qs), ps, p);
      assert Front(ps + [p]) == ps;
      AtSymmetric(g, p, q);
    }
  }

  lemma {:induction false} CrossEmpty(g: Links, qs: seq<Port>)
    ensures Cross(g, qs, []) == 0
  {
    if qs != [] {
      CrossEmpty(g, Front(qs));
    }
  }

  lemma {:induction false} CrossSwap(g: Links, ps: seq<Port>, qs: seq<Port>)
    requires WellLinked(g)
    ensures Cross(g, ps, qs) == Cross(g, qs, ps)
  {
    if ps == [] {
      CrossEmpty(g, qs);
    } else {
      CrossSwap(g, Front(ps), qs);
      CrossColumn(g, qs, Front(ps), Last(ps));
      FrontLast(ps);
    }
  }

  lemma {:induction false} LeavingIsCross(g: Links, ps: seq<Port>, qs: seq<Port>, n: Node)
    requires Distinct(qs)
    requires forall p :: p in ps ==> forall x :: x in At(g, p) ==> (x in qs <==> x.node == n)
    ensures LeavingTo(g, ps, n) == Cross(g, ps, qs)
  {
    if ps != [] {
      LeavingIsCross(g, Front(ps), qs, n);
      HitsIsRow(At(g, Last(ps)), qs, n);
    }
  }

  lemma {:induction false} ArrivingIsCross(g: Links, qs: seq<Port>, ps: seq<Port>, m: Node)
    requires Distinct(ps)
    requires forall q :: q in qs ==> forall x :: x in At(g, q) ==> (x in ps <==> x.node == m)
    ensures CountedAt(g, qs, m) + LoopedAt(g, qs, m) == Cross(g, qs, ps)
  {
    if qs != [] {
      ArrivingIsCross(g, Front(qs), ps, m);
      HitsIsRow(At(g, Last(qs)), ps, m);
    }
  }

  lemma OutPeers(g: Links, m: Node, n: Node)
    requires Closed(g) && HasPorts(g, m) && forall p :: p in g ==> IsPort(p)
    ensures forall p :: p in OutPorts(m) ==> forall x :: x in At(g, p) ==> (x in InPorts(n) <==> x.node == n)
  {
    PortsOfNode(m);
    PortsOfNode(n);
  }

  lemma InPeers(g: Links, m: Node, n: Node)
    requires Closed(g) && HasPorts(g, n) && forall p :: p in g ==> IsPort(p)
    ensures forall q :: q in InPorts(n) ==> forall x :: x in At(g, q) ==> (x in OutPorts(m) <==> x.node == m)
  {
    PortsOfNode(m);
    PortsOfNode(n);
  }

  // The edges m sends towards n are the edges n receives from m.
  lemma WeightSplits(g: Links, nodes: seq<Node>, m: Node, n: Node)
    requires GraphOk(g, nodes) && m in nodes && n in nodes
    ensures Weight(g, m, n) == Counted(g, m, n) + Looped(g, m, n)
  {
    OutPeers(g, m, n);
    InPeers(g, m, n);
    assert Distinct(InPorts(n)) && Distinct(OutPorts(m)) by {
      PortsOfNode(m);
      PortsOfNode(n);
    }
    LeavingIsCross(g, OutPorts(m), InPorts(n), n);
    ArrivingIsCross(g, InPorts(n), OutPorts(m), m);
    CrossSwap(g, OutPorts(m), InPorts(n));
  }

  lemma {:induction false} CountedNonNegative(g: Links, qs: seq<Port>, m: Node)
    ensures CountedAt(g, qs, m) >= 0
  {
    if qs != [] {
      CountedNonNegative(g, Front(qs), m);
      var s := At(g, Last(qs));
      if s != [] {
        HitsHead(s, m);
      }
    }
  }

  lemma {:induction false} HitsHead(s: seq<Port>, m: Node)
    requires s != []
    ensures s[0].node == m ==> Hits(s, m) >= 1
  {
    if |s| > 1 {
      HitsHead(Front(s), m);
    }
  }

  // ------------------------------------------------- summing over all nodes

  function CountedFrom(g: Links, ms: seq<Node>, n: Node): int
  {
    if ms == [] then 0 else CountedFrom(g, Front(ms), n) + Counted(g, Last(ms), n)
  }

  function LoopedFrom(g: Links, ms: seq<Node>, n: Node): nat
  {
    if ms == [] then 0 else LoopedFrom(g, Front(ms), n) + Looped(g, Last(ms), n)
  }

  function CountedAtFrom(g: Links, qs: seq<Port>, ms: seq<Node>): int
  {
    if ms == [] then 0 else CountedAtFrom(g, qs, Front(ms)) + CountedAt(g, qs, Last(ms))
  }

  function HitsFrom(s: seq<Port>, ms: seq<Node>): nat {
    if ms == [] then 0 else HitsFrom(s, Front(ms)) + Hits(s, Last(ms))
  }

  function BackFrom(g: Links, q: Port, ms: seq<Node>): nat
  {
    if ms == [] then 0 else BackFrom(g, q, Front(ms)) + Back(g, q, Last(ms))
  }

  lemma {:induction false} HitsFromAdd(s: seq<Port>, x: Port, ms: seq<Node>)
    ensures HitsFrom(s + [x], ms) == HitsFrom(s, ms) + multiset(ms)[x.node]
  {
    if ms != [] {
      HitsFromAdd(s, x, Front(ms));
      FrontLast(ms);
      assert Front(s + [x]) == s;
    }
  }

  lemma {:induction false} HitsFromEmpty(ms: seq<Node>)
    ensures HitsFrom([], ms) == 0
  {
    if ms != [] {
      HitsFromEmpty(Front(ms));
    }
  }

  lemma {:induction false} HitsFromAll(s: seq<Port>, ms: seq<Node>)
    requires Distinct(ms) && forall x :: x in s ==> x.node in ms
    ensures HitsFrom(s, ms) == |s|
  {
    if s == [] {
      HitsFromEmpty(ms);
    } else {
      FrontLast(s);
      HitsFromAll(Front(s), ms);
      HitsFromAdd(Front(s), Last(s), ms);
      DistinctOnce(ms, Last(s).node);
    }
  }

  lemma {:induction false} BackFromIs(g: Links, q: Port, ms: seq<Node>)
    ensures BackFrom(g, q, ms) ==
      if q.InData? && At(g, q) != [] && At(g, q)[0].OutData? && IsNextIteration(At(g, q)[0].node)
      then multiset(ms)[At(g, q)[0].node] else 0
  {
    if ms != [] {
      BackFromIs(g, q, Front(ms));
      FrontLast(ms);
    }
  }

  lemma {:induction false} CountedAtFromAdd(g: Links, qs: seq<Port>, q: Port, ms: seq<Node>)
    ensures CountedAtFrom(g, qs + [q], ms) == CountedAtFrom(g, qs, ms) + HitsFrom(At(g, q), ms) - BackFrom(g, q, ms)
  {
    if ms != [] {
      CountedAtFromAdd(g, qs, q, Front(ms));
      assert Front(qs + [q]) == qs;
    }
  }

  lemma {:induction false} CountedAtFromEmpty(g: Links, ms: seq<Node>)
    ensures CountedAtFrom(g, [], ms) == 0
  {
    if ms != [] {
      CountedAtFromEmpty(g, Front(ms));
    }
  }

  lemma {:induction false} CountedAtFromAll(g: Links, qs: seq<Port>, ms: seq<Node>)
    requires Distinct(ms)
    requires forall q :: q in qs ==> forall x :: x in At(g, q) ==> x.node in ms
    ensures CountedAtFrom(g, qs, ms) == InSizes(g, qs)
  {
    if qs == [] {
      CountedAtFromEmpty(g, ms);
    } else {
      var q := Last(qs);
      FrontLast(qs);
      CountedAtFromAll(g, Front(qs), ms);
      CountedAtFromAdd(g, Front(qs), q, ms);
      HitsFromAll(At(g, q), ms);
      BackFromIs(g, q, ms);
      if At(g, q) != [] {
        DistinctOnce(ms, At(g, q)[0].node);
      }
    }
  }

  lemma {:induction false} CountedFromIs(g: Links, ms: seq<Node>, n: Node)
    ensures CountedFrom(g, ms, n) == CountedAtFrom(g, InPorts(n), ms)
  {
    if ms != [] {
      CountedFromIs(g, Front(ms), n);
    }
  }

  // GetInEdgeSize is the number of counted edges from all nodes of the graph.
  lemma InEdgeSizeCounts(g: Links, nodes: seq<Node>, n: Node)
    requires GraphOk(g, nodes) && n in nodes
    ensures InEdgeSize(g, n) == CountedFrom(g, nodes, n)
  {
    PortsOfNode(n);
    CountedFromIs(g, nodes, n);
    CountedAtFromAll(g, InPorts(n), nodes);
  }
}
