// ReverseBrushWhileBodySubGraph: the shapes behind the varying inputs of a loop
// body lose their rank.
module ShapeFlow {
  import opened Links
  import opened Degrees
  import opened Products

  type Shapes = map<Port, seq<int>>

  // A set of nodes that data edges do not leave.
  ghost predicate FlowClosed(g: Links, s: set<Node>) {
    forall p, q {:trigger q in g[p]} :: p in g && q in g[p] && p.OutData? && q.InData? && p.node in s ==> q.node in s
  }

  ghost function NodesIn(g: Links): set<Node> {
    set p | p in g :: p.node
  }

  // Where a data edge leads from s, and where k of them lead from start.
  ghost function Next(g: Links, s: set<Node>): set<Node> {
    set p, q | p in g && q in g[p] && p.OutData? && q.InData? && p.node in s :: q.node
  }

  ghost function Steps(g: Links, start: seq<Node>, k: nat): set<Node> {
    if k == 0 then NodeSet(start) else Steps(g, start, k - 1) + Next(g, Steps(g, start, k - 1))
  }

  // Some number of data edges leads from start to n.
  ghost predicate Led(g: Links, start: seq<Node>, n: Node) {
    exists k: nat :: n in Steps(g, start, k)
  }

  lemma LedOn(g: Links, start: seq<Node>, p: Port, q: Port)
    requires p in g && q in g[p] && p.OutData? && q.InData? && Led(g, start, p.node)
    ensures Led(g, start, q.node)
  {
    var k: nat :| p.node in Steps(g, start, k);
    assert q.node in Next(g, Steps(g, start, k));
    assert q.node in Steps(g, start, k + 1);
  }

  // A set that holds the start and that no data edge leaves holds all of it.
  lemma {:induction false} StepsWithin(g: Links, start: seq<Node>, s: set<Node>, k: nat)
    requires NodeSet(start) <= s && FlowClosed(g, s)
    ensures Steps(g, start, k) <= s
  {
    if k > 0 {
      StepsWithin(g, start, s, k - 1);
      forall n | n in Next(g, Steps(g, start, k - 1)) ensures n in s {
        var p, q :| p in g && q in g[p] && p.OutData? && q.InData? && p.node in Steps(g, start, k - 1) && q.node == n;
      }
    }
  }

  // The data outputs of the nodes s, and the data inputs that they feed.
  ghost predicate Behind(g: Links, s: set<Node>, x: Port)
    requires x in g
  {
    (x.OutData? && x.node in s) || (x.InData? && exists p :: p in g && x in g[p] && p.OutData? && p.node in s)
  }

  ghost function AllMarks(g: Links, s: set<Node>): set<Port> {
    set x | x in g && Behind(g, s, x)
  }

  function Marked(shapes: Shapes, marks: set<Port>): Shapes {
    map x | x in shapes :: if x in marks then UNKNOWN_RANK else shapes[x]
  }

  // What one out-anchor marks, and what the first k of a node do.
  ghost function PortMarks(g: Links, p: Port): set<Port> {
    {p} + set q | q in At(g, p) && q.InData?
  }

  ghost function NodeMarks(g: Links, n: Node, k: nat): set<Port> {
    if k == 0 then {} else NodeMarks(g, n, k - 1) + PortMarks(g, OutData(n, k - 1))
  }

  lemma OneMoreElement(s: seq<Node>, n: Node)
    ensures NodeSet(s + [n]) == NodeSet(s) + {n}
  {
  }

  ghost function Fed(marks: set<Port>): set<Node> {
    set q | q in marks && q.InData? :: q.node
  }

  ghost predicate FlowOk(g: Links, shapes: Shapes) {
    && (forall x {:trigger IsPort(x)} :: x in g ==> IsPort(x))
    && (forall x {:trigger x in g} :: x in g && (x.InData? || x.OutData?) ==> x in shapes)
    && (forall n, k: nat {:trigger OutData(n, k)} :: n in NodesIn(g) && k < n.outputs ==> OutData(n, k) in g)
    && Closed(g)
  }

  lemma MarkedTwice(shapes: Shapes, a: set<Port>, b: set<Port>)
    ensures Marked(Marked(shapes, a), b) == Marked(shapes, a + b) && Marked(shapes, {}) == shapes
  {
  }

  class ShapeRefiner {
    const links: Links
    var shapes: Shapes

    constructor (links: Links, shapes: Shapes)
      ensures this.links == links && this.shapes == shapes
    {
      this.links, this.shapes := links, shapes;
    }

    // SetUnknownDimNumShape of the descriptor at p.
    method SetUnknownDimNumShape(p: Port)
      modifies this`shapes
      ensures shapes == Marked(old(shapes), {p})
    {
      if p in shapes {
        shapes := shapes[p := UNKNOWN_RANK];
      }
    }

    // One out-anchor: it and the data inputs it feeds are marked, and the nodes
    // fed go onto the stack.
    method BrushOutput(p: Port, stack: seq<Node>) returns (r: seq<Node>)
      requires p.OutData? && p in links
      modifies this`shapes
      ensures shapes == Marked(old(shapes), PortMarks(links, p))
      ensures NodeSet(r) == NodeSet(stack) + Fed(PortMarks(links, p))
    {
      ghost var start := shapes;
      SetUnknownDimNumShape(p);
      var peers := InDataOf(links[p]);
      r := stack;
      ghost var marks := {p};
      NoPeers(peers);
      for j := 0 to |peers|
        invariant marks == {p} + (set q | q in peers[..j]) && shapes == Marked(start, marks)
        invariant NodeSet(r) == NodeSet(stack) + OwnersOf(peers[..j])
      {
        MarkedTwice(start, marks, {peers[j]});
        MoreOwners(peers, j);
        OneMoreElement(r, peers[j].node);
        SetUnknownDimNumShape(peers[j]);
        r := r + [peers[j].node];
        marks := marks + {peers[j]};
        assert peers[..j + 1] == peers[..j] + [peers[j]];
      }
      assert peers[..|peers|] == peers;
      FedByPeers(links, p);
    }

    method BrushNode(n: Node, stack: seq<Node>) returns (r: seq<Node>)
      requires forall k: nat {:trigger OutData(n, k)} :: k < n.outputs ==> OutData(n, k) in links
      modifies this`shapes
      ensures shapes == Marked(old(shapes), NodeMarks(links, n, n.outputs))
      ensures NodeSet(r) == NodeSet(stack) + Fed(NodeMarks(links, n, n.outputs))
    {
      hide Marked, PortMarks, Fed;
      ghost var start := shapes;
      r := stack;
      MarkedTwice(start, {}, {});
      FedNone();
      for k := 0 to n.outputs
        invariant shapes == Marked(start, NodeMarks(links, n, k))
        invariant NodeSet(r) == NodeSet(stack) + Fed(NodeMarks(links, n, k))
      {
        MarkedTwice(start, NodeMarks(links, n, k), PortMarks(links, OutData(n, k)));
        FedMore(NodeMarks(links, n, k), PortMarks(links, OutData(n, k)));
        assert NodeMarks(links, n, k + 1) == NodeMarks(links, n, k) + PortMarks(links, OutData(n, k));
        r := BrushOutput(OutData(n, k), r);
      }
    }

    // The visited nodes are exactly those that data edges lead to from the
    // varying inputs. Their outputs and what these feed lose their rank; all
    // other shapes stay.
    method ReverseBrushWhileBodySubGraph(varying: seq<Node>) returns (visited: set<Node>)
      requires FlowOk(links, shapes) && NodeSet(varying) <= NodesIn(links)
      modifies this`shapes
      ensures forall n :: n in visited <==> Led(links, varying, n)
      ensures shapes == Marked(old(shapes), AllMarks(links, visited))
    {
      ghost var start, reach := shapes, NodesIn(links);
      assert forall x {:trigger IsPort(x)} :: x in links ==> IsPort(x);
      hide Marked, AllMarks, NodeMarks, Fed, FlowClosed, Walking, NodesIn, Led;
      var stack := varying;
      visited := {};
      ghost var left := reach;
      NothingMarked(links, start);
      WalkStarts(links, varying);
      while stack != []
        invariant shapes == Marked(start, AllMarks(links, visited)) && left == reach - visited
        invariant Walking(links, varying, visited, stack)
        decreases left, |stack|
      {
        var n := stack[|stack| - 1];
        WithinGraph(links, varying, visited, stack);
        ghost var before := stack;
        stack := stack[..|stack| - 1];
        if n in visited {
          WalkSkips(links, varying, visited, before);
        } else {
          NodeAdded(links, start, visited, n);
          MarkedTwice(start, AllMarks(links, visited), NodeMarks(links, n, n.outputs));
          stack := BrushNode(n, stack);
          WalkSteps(links, start, varying, visited, before, stack);
          visited := visited + {n};
          left := left - {n};
        }
      }
      WalkEnds(links, varying, visited);
    }
  }

  lemma {:induction false} InDataMember(s: seq<Port>, q: Port)
    ensures q in InDataOf(s) <==> q in s && q.InData?
  {
    if s != [] {
      FrontLast(s);
      InDataMember(Front(s), q);
    }
  }

  ghost function OwnersOf(ps: seq<Port>): set<Node> {
    set q | q in ps :: q.node
  }

  lemma NoPeers(ps: seq<Port>)
    ensures OwnersOf(ps[..0]) == {}
  {
  }

  lemma MoreOwners(ps: seq<Port>, j: nat)
    requires j < |ps|
    ensures OwnersOf(ps[..j + 1]) == OwnersOf(ps[..j]) + {ps[j].node}
  {
    assert ps[j] in ps[..j + 1] && forall q :: q in ps[..j + 1] <==> q in ps[..j] || q == ps[j];
  }

  // The marks of an out-anchor, by the list of its data peers.
  lemma FedByPeers(g: Links, p: Port)
    requires p in g && p.OutData?
    ensures ({p} + set q | q in InDataOf(g[p])) == PortMarks(g, p)
    ensures Fed(PortMarks(g, p)) == OwnersOf(InDataOf(g[p]))
  {
    var peers := InDataOf(g[p]);
    forall q | q in peers || q in g[p] ensures q in peers <==> q in g[p] && q.InData? {
      InDataMember(g[p], q);
    }
    forall q | q in PortMarks(g, p) && q != p ensures q in peers {
      InDataMember(g[p], q);
    }
    forall q | q in peers ensures q in PortMarks(g, p) {
      InDataMember(g[p], q);
    }
    forall m | m in Fed(PortMarks(g, p)) ensures m in OwnersOf(peers) {
      var q :| q in PortMarks(g, p) && q.InData? && q.node == m;
      assert q in peers;
    }
    forall m | m in OwnersOf(peers) ensures m in Fed(PortMarks(g, p)) {
      var q :| q in peers && q.node == m;
      assert q in PortMarks(g, p) && q.InData?;
    }
  }

  lemma FedNone()
    ensures Fed({}) == {}
  {
  }

  lemma FedMore(a: set<Port>, b: set<Port>)
    ensures Fed(a + b) == Fed(a) + Fed(b)
  {
    forall m | m in Fed(a) + Fed(b) ensures m in Fed(a + b) {
      var q :| (q in a || q in b) && q.InData? && q.node == m;
      assert q in a + b;
    }
    forall m | m in Fed(a + b) ensures m in Fed(a) + Fed(b) {
      var q :| q in a + b && q.InData? && q.node == m;
    }
  }

  lemma NothingMarked(g: Links, shapes: Shapes)
    ensures shapes == Marked(shapes, AllMarks(g, {}))
  {
    assert AllMarks(g, {}) == {};
  }

  lemma {:induction false} NodeMark(g: Links, n: Node, k: nat, x: Port)
    ensures x in NodeMarks(g, n, k) <==>
      (x.OutData? && x.node == n && x.idx < k) || (x.InData? && exists j: nat :: j < k && x in At(g, OutData(n, j)))
  {
    if k > 0 {
      NodeMark(g, n, k - 1, x);
    }
  }

  // A further node adds exactly its own marks.
  lemma NodeAdded(g: Links, shapes: Shapes, s: set<Node>, n: Node)
    requires FlowOk(g, shapes) && n in NodesIn(g)
    ensures AllMarks(g, s + {n}) == AllMarks(g, s) + NodeMarks(g, n, n.outputs)
  {
    hide NodeMarks;
    forall x | x in AllMarks(g, s + {n}) ensures x in AllMarks(g, s) + NodeMarks(g, n, n.outputs) {
      NodeMark(g, n, n.outputs, x);
      assert IsPort(x);
      if x.InData? {
        var p :| p in g && x in g[p] && p.OutData? && p.node in s + {n};
        assert IsPort(p);
        if p.node == n {
          assert p == OutData(n, p.idx) && x in At(g, OutData(n, p.idx));
        }
      }
    }
    forall x | x in NodeMarks(g, n, n.outputs) ensures x in AllMarks(g, s + {n}) {
      NodeMark(g, n, n.outputs, x);
      if x.InData? {
        var j: nat :| j < n.outputs && x in At(g, OutData(n, j));
        assert OutData(n, j) in g && x in g[OutData(n, j)];
      } else {
        assert x == OutData(n, x.idx);
      }
    }
    forall x | x in AllMarks(g, s) ensures x in AllMarks(g, s + {n}) {
      assert Behind(g, s + {n}, x);
    }
  }

  // The start, and whatever the visited nodes feed, is visited or stacked, and
  // data edges lead to all of that.
  ghost predicate Walking(g: Links, start: seq<Node>, visited: set<Node>, stack: seq<Node>) {
    && (forall n :: n in start ==> n in visited || n in stack)
    && (forall n :: n in visited ==> n in NodesIn(g) && Led(g, start, n))
    && (forall n :: n in stack ==> n in NodesIn(g) && Led(g, start, n))
    && (forall n :: n in visited ==> forall m :: m in Fed(NodeMarks(g, n, n.outputs)) ==> m in visited || m in stack)
  }

  lemma WalkStarts(g: Links, start: seq<Node>)
    requires NodeSet(start) <= NodesIn(g)
    ensures Walking(g, start, {}, start)
  {
    forall n | n in start ensures n in NodesIn(g) && Led(g, start, n) {
      assert n in Steps(g, start, 0);
    }
  }

  lemma WithinGraph(g: Links, start: seq<Node>, visited: set<Node>, stack: seq<Node>)
    requires stack != [] && Walking(g, start, visited, stack)
    ensures stack[|stack| - 1] in NodesIn(g)
  {
  }

  lemma WalkSkips(g: Links, start: seq<Node>, visited: set<Node>, stack: seq<Node>)
    requires stack != [] && Walking(g, start, visited, stack) && Last(stack) in visited
    ensures Walking(g, start, visited, Front(stack))
  {
    hide Fed, NodeMarks, Led, NodesIn;
    assert forall n :: n in stack <==> n in Front(stack) || n == Last(stack) by {
      FrontLast(stack);
    }
  }

  lemma WalkSteps(g: Links, shapes: Shapes, start: seq<Node>, visited: set<Node>, stack: seq<Node>, next: seq<Node>)
    requires stack != [] && Walking(g, start, visited, stack) && FlowOk(g, shapes)
    requires NodeSet(next) == NodeSet(Front(stack)) + Fed(NodeMarks(g, Last(stack), Last(stack).outputs))
    ensures Walking(g, start, visited + {Last(stack)}, next)
  {
    hide Fed, NodeMarks, Led, NodesIn, FlowOk;
    var n := Last(stack);
    assert forall m :: m in stack <==> m in Front(stack) || m == n by {
      FrontLast(stack);
    }
    forall m | m in Fed(NodeMarks(g, n, n.outputs)) ensures m in NodesIn(g) && Led(g, start, m) {
      FedLed(g, shapes, start, n, m);
    }
    assert forall m :: m in next <==> m in NodeSet(next);
    assert forall m :: m in Front(stack) <==> m in NodeSet(Front(stack));
  }

  lemma FedLed(g: Links, shapes: Shapes, start: seq<Node>, n: Node, m: Node)
    requires FlowOk(g, shapes) && n in NodesIn(g) && Led(g, start, n) && m in Fed(NodeMarks(g, n, n.outputs))
    ensures m in NodesIn(g) && Led(g, start, m)
  {
    hide NodeMarks, Led;
    var q :| q in NodeMarks(g, n, n.outputs) && q.InData? && q.node == m;
    NodeMark(g, n, n.outputs, q);
    var j: nat :| j < n.outputs && q in At(g, OutData(n, j));
    LedOn(g, start, OutData(n, j), q);
    assert q in g;
  }

  lemma WalkEnds(g: Links, start: seq<Node>, visited: set<Node>)
    requires Walking(g, start, visited, []) && forall x {:trigger IsPort(x)} :: x in g ==> IsPort(x)
    ensures forall n :: n in visited <==> Led(g, start, n)
  {
    VisitedClosed(g, start, visited);
    hide Walking, FlowClosed;
    forall n | Led(g, start, n) ensures n in visited {
      var k: nat :| n in Steps(g, start, k);
      StepsWithin(g, start, visited, k);
    }
    forall n | n in visited ensures Led(g, start, n) {
      VisitedLed(g, start, visited, n);
    }
  }

  lemma VisitedLed(g: Links, start: seq<Node>, visited: set<Node>, n: Node)
    requires Walking(g, start, visited, []) && n in visited
    ensures Led(g, start, n)
  {
  }

  lemma VisitedClosed(g: Links, start: seq<Node>, visited: set<Node>)
    requires Walking(g, start, visited, []) && forall x {:trigger IsPort(x)} :: x in g ==> IsPort(x)
    ensures NodeSet(start) <= visited && FlowClosed(g, visited)
  {
    hide Led, NodesIn;
    forall p, q | p in g && q in g[p] && p.OutData? && q.InData? && p.node in visited ensures q.node in visited {
      var n := p.node;
      NodeMark(g, n, n.outputs, q);
      assert IsPort(p) && p == OutData(n, p.idx) && q in At(g, OutData(n, p.idx));
      assert q in NodeMarks(g, n, n.outputs);
      assert q.node in Fed(NodeMarks(g, n, n.outputs));
    }
  }
}
