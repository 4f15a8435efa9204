// ComputeGraph: the node list of one graph over the shared anchors, and the
// two counter-based topological sorts.
module ComputeGraphs {
  import opened Links
  import opened Anchors
  import opened Degrees
  import opened TopoOrder
  import opened Targets
  import opened InputsOrder

  const UINT64_MAX: int := 0xFFFF_FFFF_FFFF_FFFF

  predicate IsInputKind(n: Node) {
    n.kind == "Data" || n.kind == "AippData" || n.kind == "Input" || n.kind == "AnnData"
  }

  function PeerTotal(g: Links, ps: seq<Port>): nat {
    if ps == [] then 0 else PeerTotal(g, Front(ps)) + |At(g, Last(ps))|
  }

  function OutEdgeSize(g: Links, n: Node): nat {
    var data := if IsNextIteration(n) then 0 else PeerTotal(g, OutPorts(n)[..n.outputs]);
    var ctrl := |At(g, OutCtrl(n))|;
    if data > UINT64_MAX - ctrl then 0 else data + ctrl
  }

  // A node that is neither an input nor connected to anything.
  predicate IsIsolated(g: Links, n: Node) {
    InEdgeSize(g, n) == 0 && !IsInputKind(n) && OutEdgeSize(g, n) == 0
  }

  // Start stack before the user order is applied: both groups reversed.
  function AddSpec(n: Node, free: bool, a: seq<Node>): seq<Node> {
    if free && !IsInputKind(n) then [n] + a else a
  }

  function AddData(n: Node, free: bool, b: seq<Node>): seq<Node> {
    if free && IsInputKind(n) then [n] + b else b
  }

  function SpecNodes(g: Links, ns: seq<Node>): seq<Node> {
    if ns == [] then [] else AddSpec(Last(ns), InEdgeSize(g, Last(ns)) == 0, SpecNodes(g, Front(ns)))
  }

  function DataNodes(g: Links, ns: seq<Node>): seq<Node> {
    if ns == [] then [] else AddData(Last(ns), InEdgeSize(g, Last(ns)) == 0, DataNodes(g, Front(ns)))
  }

  lemma StartStep(g: Links, ns: seq<Node>, n: Node)
    ensures SpecNodes(g, ns + [n]) == AddSpec(n, InEdgeSize(g, n) == 0, SpecNodes(g, ns))
    ensures DataNodes(g, ns + [n]) == AddData(n, InEdgeSize(g, n) == 0, DataNodes(g, ns))
    ensures InCounters(g, ns + [n]) == InCounters(g, ns)[n := InEdgeSize(g, n) % TWO32]
    ensures NoneIsolated(g, ns + [n]) <==> NoneIsolated(g, ns) && !IsIsolated(g, n)
  {
    assert Front(ns + [n]) == ns && Last(ns + [n]) == n;
  }

  predicate NoneIsolated(g: Links, ns: seq<Node>) {
    ns == [] || (NoneIsolated(g, Front(ns)) && !IsIsolated(g, Last(ns)))
  }

  // SortNodes after the nodes ns.
  ghost predicate Started(g: Links, ns: seq<Node>, verifyIsolated: bool, ok: bool, stack: seq<Node>, specSize: nat,
                          cnt: map<Node, int>)
  {
    && (ok <==> !verifyIsolated || NoneIsolated(g, ns))
    && (ok ==> specSize == |SpecNodes(g, ns)| && stack == SpecNodes(g, ns) + DataNodes(g, ns))
    && (ok ==> cnt == InCounters(g, ns))
  }

  lemma StartedStep(g: Links, ns: seq<Node>, n: Node, verifyIsolated: bool, ok: bool, stack: seq<Node>, specSize: nat,
                    cnt: map<Node, int>, next: seq<Node>, special: nat, count: int)
    requires Started(g, ns, verifyIsolated, true, stack, specSize, cnt)
    requires ok <==> !(verifyIsolated && IsIsolated(g, n))
    requires count == InEdgeSize(g, n) < TWO32
    requires ok ==> next == AddSpec(n, count == 0, SpecNodes(g, ns)) + AddData(n, count == 0, DataNodes(g, ns))
    requires ok ==> special == |AddSpec(n, count == 0, SpecNodes(g, ns))|
    ensures Started(g, ns + [n], verifyIsolated, ok, next, special, cnt[n := count])
  {
    StartStep(g, ns, n);
    ModSmall(count);
  }

  lemma NoneIsolatedPrefix(g: Links, ns: seq<Node>, k: nat)
    requires k <= |ns|
    ensures NoneIsolated(g, ns) ==> NoneIsolated(g, ns[..k])
  {
    NoneIsolatedIff(g, ns);
    NoneIsolatedIff(g, ns[..k]);
  }

  lemma {:induction false} NoneIsolatedIff(g: Links, ns: seq<Node>)
    ensures NoneIsolated(g, ns) <==> forall n :: n in ns ==> !IsIsolated(g, n)
  {
    if ns != [] {
      FrontLast(ns);
      NoneIsolatedIff(g, Front(ns));
    }
  }

  lemma {:induction false} StartCounts(g: Links, ns: seq<Node>, n: Node)
    ensures multiset(SpecNodes(g, ns) + DataNodes(g, ns))[n] == if InEdgeSize(g, n) == 0 then multiset(ns)[n] else 0
  {
    if ns != [] {
      FrontLast(ns);
      StartCounts(g, Front(ns), n);
    }
  }

  function InCounters(g: Links, ns: seq<Node>): map<Node, int> {
    if ns == [] then map[] else InCounters(g, Front(ns))[Last(ns) := InEdgeSize(g, Last(ns)) % TWO32]
  }

  lemma {:induction false} InCountersAt(g: Links, ns: seq<Node>)
    ensures InCounters(g, ns).Keys == NodeSet(ns)
    ensures forall n :: n in ns ==> InCounters(g, ns)[n] == InEdgeSize(g, n) % TWO32
  {
    if ns != [] {
      FrontLast(ns);
      InCountersAt(g, Front(ns));
    }
  }

  lemma StartOk(g: Links, nodes: seq<Node>, stack: seq<Node>)
    requires Sortable(g, nodes) && multiset(stack) == multiset(SpecNodes(g, nodes) + DataNodes(g, nodes))
    ensures SortInv(g, nodes, [], multiset(stack), InCounters(g, nodes))
  {
    forall n ensures multiset(stack)[n] == if n in nodes && InEdgeSize(g, n) == 0 then 1 else 0 {
      StartCounts(g, nodes, n);
      DistinctOnce(nodes, n);
    }
    InCountersFit(g, nodes);
    StartInv(g, nodes, multiset(stack), InCounters(g, nodes));
  }

  lemma ModSmall(x: int)
    requires 0 <= x < TWO32
    ensures x % TWO32 == x
  {
  }

  lemma InCountersFit(g: Links, nodes: seq<Node>)
    requires CountersFit(g, nodes)
    ensures InCounters(g, nodes).Keys == NodeSet(nodes)
    ensures forall n :: n in nodes ==> InCounters(g, nodes)[n] == InEdgeSize(g, n)
  {
    InCountersAt(g, nodes);
    forall n | n in nodes ensures InCounters(g, nodes)[n] == InEdgeSize(g, n) {
      ModSmall(InEdgeSize(g, n));
    }
  }

  // The links with a further node that is not linked.
  function WithNode(g: Links, n: Node): Links {
    g + map p | p in InPorts(n) + OutPorts(n) :: []
  }

  // An output of a node of that name is listed with that index.
  predicate Lists(outs: seq<(Node, int)>, name: string, index: int) {
    exists o :: o in outs && o.0.name == name && o.1 == index
  }

  function WithOutput(outs: seq<(Node, int)>, n: Node, index: int): seq<(Node, int)> {
    if Lists(outs, n.name, index) then outs else outs + [(n, index)]
  }

  lemma WithNodeOk(g: Links, nodes: seq<Node>, n: Node)
    requires GraphOk(g, nodes) && n !in nodes && forall p :: p in g ==> p.node != n
    ensures GraphOk(WithNode(g, n), nodes + [n])
  {
    PortsOfNode(n);
    hide InPorts, OutPorts;
    var h := WithNode(g, n);
    assert forall p :: p in h ==> p in g || p in InPorts(n) + OutPorts(n);
    WithEmptyLists(g, h);
    hide WellLinked;
    forall p | p in h ensures IsPort(p) {
      if p !in g {
        NewPort(n, p);
      }
    }
    forall p: Port, q: Port | p in h && p.node in nodes + [n] && q in h[p] ensures q.node in nodes + [n] {
      assert p in g && q in g[p];
    }
    forall m | m in nodes + [n] ensures HasPorts(h, m) {
      if m in nodes {
        assert HasPorts(g, m);
      }
    }
  }

  // One unlinked anchor for each of ports.
  method NewAnchors(before: Universe, ports: seq<Port>) returns (u: Universe)
    requires forall p :: p in ports ==> p !in before
    ensures u.Keys == before.Keys + set p | p in ports
    ensures forall p :: p in before ==> u[p] == before[p]
    ensures forall p :: p in ports ==> fresh(u[p]) && u[p].port == p && u[p].peers == []
    ensures fresh(u.Values - before.Values)
  {
    u := before;
    for k := 0 to |ports|
      invariant u.Keys == (before.Keys + set p | p in ports[..k]) && fresh(u.Values - before.Values)
      invariant forall p :: p in before ==> u[p] == before[p]
      invariant forall p :: p in ports[..k] ==> fresh(u[p]) && u[p].port == p && u[p].peers == []
    {
      var a := new Anchor(ports[k]);
      u := u[ports[k] := a];
    }
    assert ports[..|ports|] == ports;
  }

  lemma NewAnchored(before: Universe, u: Universe, n: Node)
    requires Anchored(before) && forall p :: p in before ==> p.node != n
    requires u.Keys == before.Keys + set p | p in InPorts(n) + OutPorts(n)
    requires forall p :: p in before ==> u[p] == before[p]
    requires forall p :: p in InPorts(n) + OutPorts(n) ==> u[p].port == p && u[p].peers == []
    ensures Anchored(u) && View(u) == WithNode(View(before), n)
  {
    hide InPorts, OutPorts;
    assert forall p :: p in u ==> p in before || p in InPorts(n) + OutPorts(n);
    forall p | p in u ensures View(u)[p] == WithNode(View(before), n)[p] {
      if p in InPorts(n) + OutPorts(n) {
        assert PortsOf(u[p].peers) == [];
      }
    }
  }

  lemma NewPort(n: Node, p: Port)
    requires p in InPorts(n) + OutPorts(n)
    ensures IsPort(p) && p.node == n
  {
    PortsOfNode(n);
    assert p in InPorts(n) || p in OutPorts(n);
  }

  lemma WithEmptyLists(g: Links, h: Links)
    requires WellLinked(g) && g.Keys <= h.Keys
    requires forall p {:trigger h[p]} :: p in h ==> h[p] == if p in g then g[p] else []
    ensures WellLinked(h)
  {
    forall a, b | a in h && b in h ensures Mult(h, a, b) == Mult(h, b, a) {
      if a in g && b in g {
        assert Mult(g, a, b) == Mult(g, b, a);
      } else if a in g {
        assert b !in g[a];
      } else if b in g {
        assert a !in g[b];
      }
    }
  }

  lemma NodeIsNew(u: Universe, g: Links, nodes: seq<Node>, n: Node)
    requires Anchored(u) && g == View(u) && GraphOk(g, nodes) && forall p :: p in u ==> p.node != n
    ensures n !in nodes && forall p :: p in g ==> p.node != n
  {
    if n in nodes {
      OwnPort(g, n, InCtrl(n));
    }
  }

  method NewNode(before: Universe, name: string, kind: string, inputs: nat, outputs: nat, subgraphs: seq<string>,
                 id: int)
      returns (n: Node, u: Universe)
    requires Anchored(before)
    ensures fresh(n) && Anchored(u) && View(u) == WithNode(View(before), n) && fresh(u.Values - before.Values)
    ensures n.name == name && n.kind == kind && n.inputs == inputs && n.outputs == outputs
    ensures n.subgraphs == subgraphs && n.id == id
    ensures forall p :: p in before ==> p.node != n
  {
    n := new Node(name, kind, inputs, outputs, subgraphs, id);
    assert forall p :: p in before ==> p.node != n;
    assert forall p :: p in InPorts(n) + OutPorts(n) ==> p !in before by {
      PortsOfNode(n);
    }
    u := NewAnchors(before, InPorts(n) + OutPorts(n));
    hide WithNode, InPorts, OutPorts;
    NewAnchored(before, u, n);
  }

  class ComputeGraph {
    const name: string
    var nodes: seq<Node>
    var anchors: Universe
    var inputsOrder: seq<string>
    var isValid: bool
    var subGraphs: seq<ComputeGraph>
    var namesToSubgraph: map<string, ComputeGraph>
    var inputNodes: seq<Node>
    var outputNodes: seq<(Node, int)>

    constructor (name: string)
      ensures this.name == name && nodes == [] && anchors == map[] && inputNodes == [] && outputNodes == []
      ensures subGraphs == [] && namesToSubgraph == map[] && Valid()
    {
      this.name := name;
      nodes, anchors, inputsOrder, isValid := [], map[], [], true;
      subGraphs, namesToSubgraph, inputNodes, outputNodes := [], map[], [], [];
    }

    ghost predicate Valid()
      reads this, anchors.Values
    {
      Anchored(anchors) && GraphOk(View(anchors), nodes)
    }

    // ------------------------------------------------------------ building

    // AddNode with a given id: the new node has all its anchors, unlinked.
    method AddNode(name: string, kind: string, inputs: nat, outputs: nat, subgraphs: seq<string>, id: int)
        returns (n: Node)
      requires Valid()
      modifies this`nodes, this`anchors
      ensures Valid() && fresh(n) && nodes == old(nodes) + [n]
      ensures n.name == name && n.kind == kind && n.inputs == inputs && n.outputs == outputs
      ensures n.subgraphs == subgraphs && n.id == id
      ensures View(anchors) == WithNode(old(View(anchors)), n)
      ensures fresh(anchors.Values - old(anchors.Values))
    {
      hide GraphOk, Anchored, View, WithNode;
      ghost var g := View(anchors);
      ghost var known := nodes;
      var u;
      n, u := NewNode(anchors, name, kind, inputs, outputs, subgraphs, id);
      NodeIsNew(anchors, g, known, n);
      WithNodeOk(g, known, n);
      anchors := u;
      nodes := nodes + [n];
    }

    // A node known to the graph, or one that can join it: its anchors exist
    // and no edge leaves the graph.
    ghost predicate CanJoin(n: Node)
      reads this, anchors.Values
    {
      n in nodes || GraphOk(View(anchors), nodes + [n])
    }

    // The part of AddInputNode and AddOutputNodeByIndex that they share: a new
    // node is numbered with the number of nodes ahead of it.
    method AddIfNew(n: Node)
      requires Valid() && CanJoin(n)
      modifies this`nodes, n`id
      ensures Valid() && n in nodes
      ensures nodes == (if n in old(nodes) then old(nodes) else old(nodes) + [n])
      ensures n.id == if n in old(nodes) then old(n.id) else |old(nodes)|
    {
      hide GraphOk, Anchored, View;
      if n !in nodes {
        n.id := |nodes|;
        nodes := nodes + [n];
      }
    }

    method AddInputNode(n: Node)
      requires Valid() && CanJoin(n)
      modifies this`inputNodes, this`nodes, n`id
      ensures Valid() && inputNodes == old(inputNodes) + [n]
      ensures nodes == (if n in old(nodes) then old(nodes) else old(nodes) + [n])
      ensures n.id == if n in old(nodes) then old(n.id) else |old(nodes)|
    {
      hide GraphOk, Anchored, View;
      inputNodes := inputNodes + [n];
      AddIfNew(n);
    }

    // A repeated output is not listed again.
    method AddOutputNodeByIndex(n: Node, index: int)
      requires Valid() && CanJoin(n)
      modifies this`outputNodes, this`nodes, n`id
      ensures Valid() && outputNodes == WithOutput(old(outputNodes), n, index)
      ensures nodes == (if n in old(nodes) then old(nodes) else old(nodes) + [n])
      ensures n.id == if n in old(nodes) then old(n.id) else |old(nodes)|
    {
      hide GraphOk, Anchored, View;
      var known := ListsOutput(n, index);
      if !known {
        outputNodes := outputNodes + [(n, index)];
      }
      AddIfNew(n);
    }

    method ListsOutput(n: Node, index: int) returns (found: bool)
      ensures found == Lists(outputNodes, n.name, index)
    {
      for k := 0 to |outputNodes|
        invariant forall j :: 0 <= j < k ==> outputNodes[j].0.name != n.name || outputNodes[j].1 != index
      {
        if outputNodes[k].0.name == n.name && outputNodes[k].1 == index {
          assert outputNodes[k] in outputNodes;
          return true;
        }
      }
      return false;
    }

    // ------------------------------------------------------------ degrees

    method GetInEdgeSize(n: Node) returns (size: nat)
      requires Valid() && n in nodes
      ensures size == InEdgeSize(View(anchors), n)
    {
      ghost var g := View(anchors);
      PortsOfNode(n);
      size := 0;
      for i := 0 to n.inputs
        invariant size == InSizes(g, InPorts(n)[..i])
      {
        assert InPorts(n)[i] == InData(n, i);
        assert Front(InPorts(n)[..i + 1]) == InPorts(n)[..i];
        OwnPort(g, n, InData(n, i));
        var anchor := anchors[InData(n, i)];
        size := size + |anchor.peers|;
        if anchor.peers != [] && anchor.peers[0].port.OutData? {
          assert g[InData(n, i)][0] == anchor.peers[0].port;
          if IsNextIteration(anchor.peers[0].port.node) {
            size := size - 1;
          }
        }
      }
      assert InPorts(n)[n.inputs] == InCtrl(n);
      assert Front(InPorts(n)) == InPorts(n)[..n.inputs];
      OwnPort(g, n, InCtrl(n));
      size := size + |anchors[InCtrl(n)].peers|;
    }

    method GetOutEdgeSize(n: Node) returns (size: nat)
      requires Valid() && n in nodes
      ensures size == OutEdgeSize(View(anchors), n)
    {
      ghost var g := View(anchors);
      PortsOfNode(n);
      size := 0;
      if !IsNextIteration(n) {
        for i := 0 to n.outputs
          invariant size == PeerTotal(g, OutPorts(n)[..i])
        {
          assert OutPorts(n)[i] == OutData(n, i);
          assert Front(OutPorts(n)[..i + 1]) == OutPorts(n)[..i];
          OwnPort(g, n, OutData(n, i));
          size := size + |anchors[OutData(n, i)].peers|;
        }
      }
      assert OutPorts(n)[n.outputs] == OutCtrl(n);
      OwnPort(g, n, OutCtrl(n));
      var ctrl := |anchors[OutCtrl(n)].peers|;
      if size > UINT64_MAX - ctrl {
        return 0;
      }
      size := size + ctrl;
    }

    // ---------------------------------------------------------- SortNodes

    // One node of SortNodes: its counter, and its place in the start stack
    // a + b, whose first part has specSize entries.
    method StackNode(n: Node, verifyIsolated: bool, s: seq<Node>, specSize: nat, ghost a: seq<Node>, ghost b: seq<Node>)
      returns (ok: bool, count: int, stack: seq<Node>, special: nat)
      requires Valid() && n in nodes && InEdgeSize(View(anchors), n) < TWO32
      requires s == a + b && specSize == |a|
      ensures ok <==> !(verifyIsolated && IsIsolated(View(anchors), n))
      ensures count == InEdgeSize(View(anchors), n)
      ensures ok ==> stack == AddSpec(n, count == 0, a) + AddData(n, count == 0, b)
      ensures ok ==> special == |AddSpec(n, count == 0, a)|
    {
      var size := GetInEdgeSize(n);
      ok, count, stack, special := true, size % TWO32, s, specSize;
      if count == 0 {
        if !IsInputKind(n) {
          if verifyIsolated {
            var out := GetOutEdgeSize(n);
            ok := out != 0;
          }
          stack := [n] + stack;
          special := specSize + 1;
          assert [n] + (a + b) == [n] + a + b;
        } else {
          stack := stack[..specSize] + [n] + stack[specSize..];
          assert a + [n] + b == a + ([n] + b);
        }
      }
    }

    // Counts the in-edges of every node and stacks those that have none.
    method CollectStart(verifyIsolated: bool) returns (ok: bool, stack: seq<Node>, cnt: map<Node, int>)
      requires Valid() && CountersFit(View(anchors), nodes)
      ensures ok <==> !verifyIsolated || NoneIsolated(View(anchors), nodes)
      ensures ok ==> stack == SpecNodes(View(anchors), nodes) + DataNodes(View(anchors), nodes)
      ensures ok ==> cnt == InCounters(View(anchors), nodes)
    {
      ghost var g := View(anchors);
      ok, stack, cnt := true, [], map[];
      var specSize, k := 0, 0;
      ghost var ns: seq<Node> := [];
      while ok && k < |nodes|
        invariant k <= |nodes| && ns == nodes[..k]
        invariant Started(g, ns, verifyIsolated, ok, stack, specSize, cnt)
        decreases |nodes| - k
      {
        var count, next, special;
        ok, count, next, special :=
          StackNode(nodes[k], verifyIsolated, stack, specSize, SpecNodes(g, ns), DataNodes(g, ns));
        StartedStep(g, ns, nodes[k], verifyIsolated, ok, stack, specSize, cnt, next, special, count);
        stack, specSize, cnt := next, special, cnt[nodes[k] := count];
        ns := ns + [nodes[k]];
        k := k + 1;
      }
      if ok {
        assert ns == nodes;
      } else {
        NoneIsolatedPrefix(g, nodes, k);
      }
    }

    // Position of a name in the user's input order, or its length.
    method OrderIndex(n: Node) returns (i: nat)
      ensures i == Index(inputsOrder, n.name)
    {
      i := 0;
      while i < |inputsOrder| && inputsOrder[i] != n.name
        invariant i <= |inputsOrder| && Index(inputsOrder, n.name) == i + Index(inputsOrder[i..], n.name)
      {
        i := i + 1;
      }
    }

    // The user order pass. The position of stack[i] is not looked up again
    // after a swap.
    method ApplyInputsOrder(s: seq<Node>) returns (stack: seq<Node>)
      ensures stack == InputsOrdered(inputsOrder, s)
    {
      hide Index, Inner;
      stack := s;
      var i := 0;
      while i < |stack|
        invariant i <= |stack| && Outer(inputsOrder, s, 0) == Outer(inputsOrder, stack, i)
      {
        var x := OrderIndex(stack[i]);
        if x < |inputsOrder| {
          stack := ExchangeBehind(stack, i, x);
        }
        i := i + 1;
      }
    }

    method ExchangeBehind(s: seq<Node>, i: nat, x: nat) returns (stack: seq<Node>)
      requires i < |s|
      ensures stack == Inner(inputsOrder, s, i, x, i + 1)
    {
      hide Index;
      stack := s;
      var j := i + 1;
      while j < |stack|
        invariant i < j <= |stack| && Inner(inputsOrder, s, i, x, i + 1) == Inner(inputsOrder, stack, i, x, j)
      {
        var y := OrderIndex(stack[j]);
        if y < |inputsOrder| && x < y {
          stack := stack[i := stack[j]][j := stack[i]];
        }
        j := j + 1;
      }
    }

    method SortNodes(verifyIsolated: bool) returns (ok: bool, stack: seq<Node>, cnt: map<Node, int>)
      requires Valid() && CountersFit(View(anchors), nodes)
      ensures ok <==> !(verifyIsolated && exists n :: n in nodes && IsIsolated(View(anchors), n))
      ensures ok ==> SortInv(View(anchors), nodes, [], multiset(stack), cnt)
      ensures ok ==>
        stack == InputsOrdered(inputsOrder, SpecNodes(View(anchors), nodes) + DataNodes(View(anchors), nodes))
    {
      hide Outer;
      ok, stack, cnt := CollectStart(verifyIsolated);
      ghost var g := View(anchors);
      NoneIsolatedIff(g, nodes);
      if ok {
        OuterPermutes(inputsOrder, stack, 0);
        stack := ApplyInputsOrder(stack);
        StartOk(g, nodes, stack);
      }
    }

    // ------------------------------------------------------------- the sorts

    // Decrements the counter of each peer's node; collects those that reach 0.
    method Decrement(peers: seq<Anchor>, c: map<Node, int>) returns (cnt: map<Node, int>, ready: seq<Node>)
      ensures cnt == Drained(c, Owners(PortsOf(peers)))
      ensures ready == Ready(c, Owners(PortsOf(peers)))
    {
      cnt, ready := c, [];
      for k := 0 to |peers|
        invariant cnt == Drained(c, Owners(PortsOf(peers[..k])))
        invariant ready == Ready(c, Owners(PortsOf(peers[..k])))
      {
        OwnersStep(peers, k);
        DecrementStep(c, Owners(PortsOf(peers[..k])), peers[k].port.node);
        var n := peers[k].port.node;
        if n in cnt {
          cnt := cnt[n := Dec(cnt[n])];
          if cnt[n] == 0 {
            ready := ready + [n];
          }
        }
      }
      assert peers[..|peers|] == peers;
    }

    // One group of peers: decrement, then push what became ready.
    method PushGroup(peers: seq<Anchor>, c: map<Node, int>, s: seq<Node>, reverse: bool)
      returns (cnt: map<Node, int>, stack: seq<Node>)
      ensures cnt == Drained(c, Owners(PortsOf(peers)))
      ensures stack == s + PushOrder(Ready(c, Owners(PortsOf(peers))), reverse)
    {
      var ready;
      cnt, ready := Decrement(peers, c);
      stack := s + PushOrder(ready, reverse);
    }

    method PushDataPort(p: Port, c: map<Node, int>, s: seq<Node>, reverse: bool)
      returns (cnt: map<Node, int>, stack: seq<Node>)
      requires Anchored(anchors) && p in anchors && p.OutData?
      ensures cnt == Drained(c, PortTargets(View(anchors), p))
      ensures stack == s + Pushes(c, Groups(View(anchors), p), reverse)
    {
      var dataPeers := anchors[p].GetPeerInDataAnchors();
      var ctrlPeers := anchors[p].GetPeerInControlAnchors();
      ghost var a, b := Owners(PortsOf(dataPeers)), Owners(PortsOf(ctrlPeers));
      assert PortTargets(View(anchors), p) == a + b;
      assert Groups(View(anchors), p) == [a, b];
      cnt, stack := PushTwoGroups(dataPeers, ctrlPeers, c, s, reverse);
    }

    method PushTwoGroups(xs: seq<Anchor>, ys: seq<Anchor>, c: map<Node, int>, s: seq<Node>, reverse: bool)
      returns (cnt: map<Node, int>, stack: seq<Node>)
      ensures cnt == Drained(c, Owners(PortsOf(xs)) + Owners(PortsOf(ys)))
      ensures stack == s + Pushes(c, [Owners(PortsOf(xs)), Owners(PortsOf(ys))], reverse)
    {
      ghost var a, b := Owners(PortsOf(xs)), Owners(PortsOf(ys));
      cnt, stack := PushGroup(xs, c, s, reverse);
      cnt, stack := PushGroup(ys, cnt, stack, reverse);
      DrainedConcat(c, a, b);
      TwoPushes(c, a, b, reverse);
      Associative(s, PushOrder(Ready(c, a), reverse), PushOrder(Ready(Drained(c, a), b), reverse));
    }

    method PushControlPort(n: Node, c: map<Node, int>, s: seq<Node>, reverse: bool)
      returns (cnt: map<Node, int>, stack: seq<Node>)
      requires Anchored(anchors) && OutCtrl(n) in anchors
      ensures cnt == Drained(c, PortTargets(View(anchors), OutCtrl(n)))
      ensures stack == s + Pushes(c, Groups(View(anchors), OutCtrl(n)), reverse)
    {
      OnePush(c, Owners(View(anchors)[OutCtrl(n)]), reverse);
      cnt, stack := PushGroup(anchors[OutCtrl(n)].peers, c, s, reverse);
    }

    // All out ports of a node: its data anchors in order, then the control anchor.
    method PushTargets(n: Node, c: map<Node, int>, s: seq<Node>, reverse: bool)
      returns (cnt: map<Node, int>, stack: seq<Node>)
      requires Anchored(anchors) && HasPorts(View(anchors), n)
      ensures cnt == Drained(c, NodeTargets(View(anchors), n))
      ensures stack == s + Pushes(c, NodeGroups(View(anchors), OutPorts(n)), reverse)
    {
      hide Drained, Pushes, PortsTargets, PortTargets, NodeGroups, Groups, HasPorts;
      ghost var g, ps := View(anchors), [];
      cnt, stack := c, s;
      WalkStart(g, c, reverse);
      for k := 0 to n.outputs
        invariant ps == DataOutPorts(n, k)
        invariant cnt == Drained(c, PortsTargets(g, ps))
        invariant stack == s + Pushes(c, NodeGroups(g, ps), reverse)
      {
        var p := OutData(n, k);
        OwnPort(g, n, p);
        WalkStep(g, c, ps, p, reverse);
        Associative(s, Pushes(c, NodeGroups(g, ps), reverse), Pushes(cnt, Groups(g, p), reverse));
        cnt, stack := PushDataPort(p, cnt, stack, reverse);
        ps := ps + [p];
      }
      OwnPort(g, n, OutCtrl(n));
      OutPortsAre(n);
      WalkStep(g, c, ps, OutCtrl(n), reverse);
      Associative(s, Pushes(c, NodeGroups(g, ps), reverse), Pushes(cnt, Groups(g, OutCtrl(n)), reverse));
      cnt, stack := PushControlPort(n, cnt, stack, reverse);
    }

    method DFSTopologicalSorting(verifyIsolated: bool, reverse: bool)
      returns (ok: bool, vec: seq<Node>, ghost cnt: map<Node, int>)
      requires Valid() && CountersFit(View(anchors), nodes)
      ensures ok <==> !(verifyIsolated && exists n :: n in nodes && IsIsolated(View(anchors), n))
      ensures ok ==> SortInv(View(anchors), nodes, vec, multiset{}, cnt)
    {
      hide SortInv, GraphOk, CountersFit, HasPorts, Anchored, NodeTargets, NodeGroups, View;
      ghost var g := View(anchors);
      var stack, counters;
      ok, stack, counters := SortNodes(verifyIsolated);
      vec, cnt := [], counters;
      while ok && stack != []
        invariant ok ==> SortInv(g, nodes, vec, multiset(stack), counters)
        decreases |nodes| - |vec|
      {
        var node := stack[|stack| - 1];
        DfsStep(g, nodes, vec, stack, counters, reverse);
        vec := vec + [node];
        counters, stack := PushTargets(node, counters, stack[..|stack| - 1], reverse);
      }
      cnt := counters;
    }

    // Decrements the counters of all targets of a node; those that become
    // ready are collected by name.
    method CollectBreadthOutNode(n: Node, c: map<Node, int>) returns (cnt: map<Node, int>, breadth: seq<Node>)
      requires Anchored(anchors) && HasPorts(View(anchors), n)
      ensures Collected(View(anchors), c, OutPorts(n), cnt, breadth)
    {
      hide Drained, PortTargets, Ready, EmplaceAll, HasPorts, Collected;
      ghost var g, ps := View(anchors), [];
      cnt, breadth := c, [];
      CollectedStart(g, c);
      for k := 0 to n.outputs
        invariant ps == DataOutPorts(n, k)
        invariant Collected(g, c, ps, cnt, breadth)
      {
        var p := OutData(n, k);
        OwnPort(g, n, p);
        CollectedStep(g, c, ps, p, cnt, breadth);
        cnt, breadth := EmplaceDataPort(p, cnt, breadth);
        ps := ps + [p];
      }
      OwnPort(g, n, OutCtrl(n));
      OutPortsAre(n);
      CollectedStep(g, c, ps, OutCtrl(n), cnt, breadth);
      cnt, breadth := EmplaceControlPort(n, cnt, breadth);
    }

    method EmplaceControlPort(n: Node, c: map<Node, int>, b: seq<Node>)
      returns (cnt: map<Node, int>, breadth: seq<Node>)
      requires Anchored(anchors) && OutCtrl(n) in anchors
      ensures cnt == Drained(c, PortTargets(View(anchors), OutCtrl(n)))
      ensures breadth == EmplaceAll(b, Ready(c, PortTargets(View(anchors), OutCtrl(n))))
    {
      cnt, breadth := EmplaceGroup(anchors[OutCtrl(n)].peers, c, b);
    }

    method EmplaceGroup(peers: seq<Anchor>, c: map<Node, int>, b: seq<Node>)
      returns (cnt: map<Node, int>, breadth: seq<Node>)
      ensures cnt == Drained(c, Owners(PortsOf(peers)))
      ensures breadth == EmplaceAll(b, Ready(c, Owners(PortsOf(peers))))
    {
      var ready;
      cnt, ready := Decrement(peers, c);
      breadth := b;
      for k := 0 to |ready|
        invariant breadth == EmplaceAll(b, ready[..k])
      {
        assert Front(ready[..k + 1]) == ready[..k];
        breadth := Emplace(breadth, ready[k]);
      }
      assert ready[..|ready|] == ready;
    }

    method EmplaceDataPort(p: Port, c: map<Node, int>, b: seq<Node>)
      returns (cnt: map<Node, int>, breadth: seq<Node>)
      requires Anchored(anchors) && p in anchors && p.OutData?
      ensures cnt == Drained(c, PortTargets(View(anchors), p))
      ensures breadth == EmplaceAll(b, Ready(c, PortTargets(View(anchors), p)))
    {
      var dataPeers := anchors[p].GetPeerInDataAnchors();
      var ctrlPeers := anchors[p].GetPeerInControlAnchors();
      ghost var x, y := Owners(PortsOf(dataPeers)), Owners(PortsOf(ctrlPeers));
      assert PortTargets(View(anchors), p) == x + y;
      DrainedConcat(c, x, y);
      EmplaceAllAppend(b, Ready(c, x), Ready(Drained(c, x), y));
      cnt, breadth := EmplaceGroup(dataPeers, c, b);
      cnt, breadth := EmplaceGroup(ctrlPeers, cnt, breadth);
    }

    // push_front of each collected node, in name order.
    method PushFrontAll(breadth: seq<Node>, queue: seq<Node>) returns (r: seq<Node>)
      ensures r == Reversed(breadth) + queue
    {
      r := queue;
      for k := 0 to |breadth|
        invariant r == Reversed(breadth[..k]) + queue
      {
        assert Front(breadth[..k + 1]) == breadth[..k];
        r := [breadth[k]] + r;
      }
      assert breadth[..|breadth|] == breadth;
    }

    method BFSTopologicalSorting(verifyIsolated: bool)
      returns (ok: bool, vec: seq<Node>, ghost cnt: map<Node, int>)
      requires Valid() && CountersFit(View(anchors), nodes) && TargetNamesApart(View(anchors), nodes)
      ensures ok <==> !(verifyIsolated && exists n :: n in nodes && IsIsolated(View(anchors), n))
      ensures ok ==> SortInv(View(anchors), nodes, vec, multiset{}, cnt)
    {
      hide SortInv, GraphOk, CountersFit, HasPorts, Anchored, EmplaceAll, Reversed, View, TargetNamesApart;
      ghost var g := View(anchors);
      var input, counters;
      ok, input, counters := SortNodes(verifyIsolated);
      var queue: seq<Node> := [];
      vec := [];
      assert input + queue == input;
      while ok && (input != [] || queue != [])
        invariant ok ==> SortInv(g, nodes, vec, multiset(input + queue), counters)
        decreases |nodes| - |vec|
      {
        BfsStep(g, nodes, vec, input, queue, counters);
        var node;
        if queue != [] {
          node := queue[|queue| - 1];
          queue := queue[..|queue| - 1];
        } else {
          node := input[|input| - 1];
          input := input[..|input| - 1];
        }
        vec := vec + [node];
        var breadth;
        counters, breadth := CollectBreadthOutNode(node, counters);
        queue := PushFrontAll(breadth, queue);
      }
      assert ok ==> input + queue == [];
      cnt := counters;
    }

    // --------------------------------------------------------- the whole sort

    method SetIds(vec: seq<Node>)
      requires Distinct(vec)
      modifies vec`id
      ensures forall i :: 0 <= i < |vec| ==> vec[i].id == i
    {
      for k := 0 to |vec|
        invariant forall i :: 0 <= i < k ==> vec[i].id == i
      {
        vec[k].id := k;
      }
    }

    // Runs the chosen sort; a node left out means failure.
    method RunSort(useBfs: bool, verifyIsolated: bool, reverse: bool) returns (ok: bool, vec: seq<Node>)
      requires Valid() && CountersFit(View(anchors), nodes)
      requires useBfs ==> TargetNamesApart(View(anchors), nodes)
      ensures SortResult(View(anchors), nodes, verifyIsolated, ok, vec)
    {
      hide SortInv, GraphOk, CountersFit, Acyclic, TopologicalOrder, LoopsReturn, IsIsolated;
      ghost var cnt;
      if useBfs {
        ok, vec, cnt := BFSTopologicalSorting(verifyIsolated);
      } else {
        ok, vec, cnt := DFSTopologicalSorting(verifyIsolated, reverse);
      }
      if ok {
        EndInv(View(anchors), nodes, vec, cnt);
        ok := |vec| == |nodes|;
      }
    }

    method TopologicalSortingGraph(useBfs: bool, verifyIsolated: bool, reverse: bool) returns (ok: bool)
      requires Valid() && CountersFit(View(anchors), nodes)
      requires useBfs ==> TargetNamesApart(View(anchors), nodes)
      modifies this`nodes, this`isValid, nodes`id
      ensures Valid() && View(anchors) == old(View(anchors))
      // Success reorders the list and numbers it; it is refused only for a
      // cycle of counted edges or an isolated node.
      ensures SortResult(View(anchors), old(nodes), verifyIsolated, ok, nodes)
      // With returning loops, and so without loops, those are the only reasons.
      ensures LoopsReturn(View(anchors), old(nodes)) || NoLoopNodes(old(nodes)) ==>
        (ok <==> Acyclic(View(anchors), old(nodes)) && !AnyIsolated(View(anchors), old(nodes), verifyIsolated))
      ensures ok ==> isValid && forall i :: 0 <= i < |nodes| ==> nodes[i].id == i
      ensures ok && (LoopsReturn(View(anchors), old(nodes)) || NoLoopNodes(old(nodes))) ==>
        IdsIncrease(View(anchors), nodes)
      // Failure leaves the list and every id alone.
      ensures !ok ==> nodes == old(nodes) && isValid == old(isValid) && forall n :: n in nodes ==> n.id == old(n.id)
    {
      hide SortInv, GraphOk, CountersFit, Acyclic, TopologicalOrder, LoopsReturn, IsIsolated, IdsIncrease, View,
        Anchored;
      ghost var g, was := View(anchors), nodes;
      if NoLoopNodes(nodes) {
        NoLoopsReturn(g, nodes);
      }
      var vec;
      ok, vec := RunSort(useBfs, verifyIsolated, reverse);
      if ok {
        GraphOkPermuted(g, nodes, vec);
        SameElements(nodes, vec);
        SetIds(vec);
        nodes := vec;
        isValid := true;
        if LoopsReturn(g, was) {
          IdsFromOrder(g, was, vec);
        }
      } else {
        SortResultFailure(g, nodes, verifyIsolated, vec);
      }
    }
  }

  // The isolated-node check is on and fires.
  ghost predicate AnyIsolated(g: Links, nodes: seq<Node>, verifyIsolated: bool) {
    verifyIsolated && exists n :: n in nodes && IsIsolated(g, n)
  }

  ghost predicate SortResult(g: Links, nodes: seq<Node>, verifyIsolated: bool, ok: bool, vec: seq<Node>) {
    var isolated := AnyIsolated(g, nodes, verifyIsolated);
    && (ok ==> multiset(vec) == multiset(nodes) && !isolated)
    && (ok && LoopsReturn(g, nodes) ==> Acyclic(g, nodes) && TopologicalOrder(g, nodes, vec))
    && (!ok ==> isolated || !Acyclic(g, nodes))
  }

  lemma SortResultFailure(g: Links, nodes: seq<Node>, verifyIsolated: bool, vec: seq<Node>)
    requires SortResult(g, nodes, verifyIsolated, false, vec)
    ensures forall s :: SortResult(g, nodes, verifyIsolated, false, s)
  {
  }

  lemma GraphOkPermuted(g: Links, nodes: seq<Node>, vec: seq<Node>)
    requires GraphOk(g, nodes) && multiset(vec) == multiset(nodes)
    ensures GraphOk(g, vec) && Distinct(vec)
  {
    DistinctOfMultiset(nodes, vec);
    SameElements(nodes, vec);
  }

  lemma SameElements(nodes: seq<Node>, vec: seq<Node>)
    requires multiset(vec) == multiset(nodes)
    ensures forall i :: 0 <= i < |vec| ==> vec[i] in nodes
    ensures forall n :: n in vec <==> n in nodes
  {
    forall n ensures n in vec <==> n in nodes {
      assert n in multiset(vec) <==> n in multiset(nodes);
    }
  }

  // Every counted edge of the graph goes to a larger id.
  ghost predicate IdsIncrease(g: Links, nodes: seq<Node>)
    reads set n | n in nodes :: n`id
  {
    forall m, n :: m in nodes && n in nodes && Feeds(g, m, n) ==> m.id < n.id
  }

  lemma IdsFromOrder(g: Links, nodes: seq<Node>, vec: seq<Node>)
    requires TopologicalOrder(g, nodes, vec)
    requires forall i :: 0 <= i < |vec| ==> vec[i].id == i
    ensures IdsIncrease(g, vec)
  {
    forall m, n | m in vec && n in vec && Feeds(g, m, n) ensures m.id < n.id {
      var i :| 0 <= i < |vec| && vec[i] == m;
      var j :| 0 <= j < |vec| && vec[j] == n;
    }
  }

  lemma StepSize(nodes: seq<Node>, vec: seq<Node>, pending: multiset<Node>, m: Node)
    requires Members(nodes, vec, pending) && m in pending
    ensures |vec| < |nodes| && m in nodes
  {
    Extended(nodes, vec, pending, m);
    var rest := multiset(nodes) - multiset(vec + [m]);
    assert multiset(nodes) == multiset(vec + [m]) + rest;
    assert |multiset(vec + [m])| == |vec + [m]| && |multiset(nodes)| == |nodes|;
    assert m in multiset(vec + [m]);
  }

  // One turn of the depth-first loop.
  lemma DfsStep(g: Links, nodes: seq<Node>, vec: seq<Node>, stack: seq<Node>, cnt: map<Node, int>, reverse: bool)
    requires Sortable(g, nodes) && SortInv(g, nodes, vec, multiset(stack), cnt) && stack != []
    ensures |vec| < |nodes| && HasPorts(g, Last(stack))
    ensures SortInv(g, nodes, vec + [Last(stack)],
      multiset(stack[..|stack| - 1] + Pushes(cnt, NodeGroups(g, OutPorts(Last(stack))), reverse)),
      Drained(cnt, NodeTargets(g, Last(stack))))
  {
    hide SortInv, CountersFit, NodeGroups, Pushes, Drained, Ready;
    var m := Last(stack);
    FrontLast(stack);
    SortInvMembers(g, nodes, vec, multiset(stack), cnt);
    StepSize(nodes, vec, multiset(stack), m);
    NodeTargetsOk(g, nodes, m);
    StepInv(g, nodes, vec, multiset(stack), cnt, m, NodeTargets(g, m));
    NodeGroupsConcat(g, OutPorts(m));
    PushesReady(cnt, NodeGroups(g, OutPorts(m)), reverse);
    assert multiset(stack) - multiset{m} == multiset(Front(stack));
  }

  lemma SortInvMembers(g: Links, nodes: seq<Node>, vec: seq<Node>, pending: multiset<Node>, cnt: map<Node, int>)
    requires SortInv(g, nodes, vec, pending, cnt)
    ensures Members(nodes, vec, pending)
  {
  }

  // What becomes ready is not yet emitted or pending, so it has no duplicates.
  lemma ReadyDistinct(g: Links, nodes: seq<Node>, vec: seq<Node>, pending: multiset<Node>, ready: seq<Node>)
    requires Distinct(nodes) && Members(nodes, vec, pending + multiset(ready))
    ensures Distinct(ready) && forall n :: n in ready ==> n in nodes
  {
    assert multiset(ready) <= multiset(vec) + (pending + multiset(ready));
    forall n | n in ready ensures n in nodes {
      assert n in multiset(ready);
    }
    forall i, j | 0 <= i < j < |ready| ensures ready[i] != ready[j] {
      DistinctOnce(nodes, ready[i]);
      if ready[i] == ready[j] {
        TwiceCounted(ready, i, j);
      }
    }
  }

  function BfsNext(input: seq<Node>, queue: seq<Node>): Node
    requires input != [] || queue != []
  {
    if queue != [] then Last(queue) else Last(input)
  }

  function BfsInput(input: seq<Node>, queue: seq<Node>): seq<Node>
    requires input != [] || queue != []
  {
    if queue != [] then input else Front(input)
  }

  function BfsQueue(input: seq<Node>, queue: seq<Node>): seq<Node> {
    if queue != [] then Front(queue) else queue
  }

  lemma BfsRest(input: seq<Node>, queue: seq<Node>)
    requires input != [] || queue != []
    ensures multiset(BfsInput(input, queue) + BfsQueue(input, queue)) ==
      multiset(input + queue) - multiset{BfsNext(input, queue)}
    ensures BfsNext(input, queue) in input + queue
  {
    var m := BfsNext(input, queue);
    if queue != [] {
      assert input + queue == (input + Front(queue)) + [m];
    } else {
      assert input + queue == (Front(input) + queue) + [m];
    }
    LastAway(BfsInput(input, queue) + BfsQueue(input, queue), m);
  }

  lemma LastAway(s: seq<Node>, m: Node)
    ensures multiset(s + [m]) - multiset{m} == multiset(s)
  {
  }

  // One turn of the breadth-first loop.
  lemma BfsStep(g: Links, nodes: seq<Node>, vec: seq<Node>, input: seq<Node>, queue: seq<Node>, cnt: map<Node, int>)
    requires Sortable(g, nodes) && TargetNamesApart(g, nodes) && (input != [] || queue != [])
    requires SortInv(g, nodes, vec, multiset(input + queue), cnt)
    ensures var m := BfsNext(input, queue);
      && |vec| < |nodes| && HasPorts(g, m)
      && SortInv(g, nodes, vec + [m],
           multiset(BfsInput(input, queue) +
             (Reversed(EmplaceAll([], Ready(cnt, NodeTargets(g, m)))) + BfsQueue(input, queue))),
           Drained(cnt, NodeTargets(g, m)))
  {
    hide SortInv, CountersFit, NodeTargets, EmplaceAll, Reversed, Drained, Ready;
    var m := BfsNext(input, queue);
    var pending := multiset(input + queue);
    BfsRest(input, queue);
    SortInvMembers(g, nodes, vec, pending, cnt);
    StepSize(nodes, vec, pending, m);
    NodeTargetsOk(g, nodes, m);
    var ready := Ready(cnt, NodeTargets(g, m));
    StepInv(g, nodes, vec, pending, cnt, m, NodeTargets(g, m));
    SortInvMembers(g, nodes, vec + [m], pending - multiset{m} + multiset(ready), Drained(cnt, NodeTargets(g, m)));
    ReadyDistinct(g, nodes, vec + [m], pending - multiset{m}, ready);
    assert UniqueNames(ready) by {
      assert UniqueNames(NodeTargets(g, m));
      ReadyIn(cnt, NodeTargets(g, m));
    }
    EmplaceAllExact(ready);
    ReversedMultiset(EmplaceAll([], ready));
    BfsPending(BfsInput(input, queue), Reversed(EmplaceAll([], ready)), BfsQueue(input, queue), ready);
  }

  lemma BfsPending(a: seq<Node>, r: seq<Node>, b: seq<Node>, ready: seq<Node>)
    requires multiset(r) == multiset(ready)
    ensures multiset(a + (r + b)) == multiset(a + b) + multiset(ready)
  {
  }

  lemma OwnersStep(peers: seq<Anchor>, k: nat)
    requires k < |peers|
    ensures Owners(PortsOf(peers[..k + 1])) == Owners(PortsOf(peers[..k])) + [peers[k].port.node]
  {
    assert Front(PortsOf(peers[..k + 1])) == PortsOf(peers[..k]);
  }

  lemma DecrementStep(c: map<Node, int>, ts: seq<Node>, n: Node)
    ensures var cnt := Drained(c, ts);
      && Drained(c, ts + [n]) == (if n in cnt then cnt[n := Dec(cnt[n])] else cnt)
      && Ready(c, ts + [n]) == Ready(c, ts) + (if n in cnt && Dec(cnt[n]) == 0 then [n] else [])
  {
    assert Front(ts + [n]) == ts;
  }

  lemma SwapMultiset<T>(s: seq<T>, i: nat, j: nat)
    requires i < |s| && j < |s|
    ensures multiset(s[i := s[j]][j := s[i]]) == multiset(s)
  {
  }

  lemma OnePush(c: map<Node, int>, a: seq<Node>, reverse: bool)
    ensures Pushes(c, [a], reverse) == PushOrder(Ready(c, a), reverse)
  {
    assert Front([a]) == [];
  }

  lemma TwoPushes(c: map<Node, int>, a: seq<Node>, b: seq<Node>, reverse: bool)
    ensures Pushes(c, [a, b], reverse) == PushOrder(Ready(c, a), reverse) + PushOrder(Ready(Drained(c, a), b), reverse)
  {
    assert Front([a, b]) == [a] && Last([a, b]) == b;
    ConcatOne(a);
    OnePush(c, a, reverse);
  }
}
