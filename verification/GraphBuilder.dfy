// GraphBuilderImpl: a graph is built from its input operators by walking all
// links in both directions, one node per operator, and then adding the
// recorded edges.
module GraphBuilders {
  import opened Links
  import opened Anchors
  import opened Degrees
  import opened ComputeGraphs
  import opened Operators

  // ------------------------------------------------------------- the walk

  // The operators that a recorded link of o leads to, and those it comes from.
  ghost function Owners(es: seq<OpIO>): set<OperatorImpl> {
    set e | e in es :: e.owner
  }

  ghost function OutOwners(m: map<string, seq<OpIO>>, names: set<string>): set<OperatorImpl> {
    set k, e | k in names && k in m && e in m[k] :: e.owner
  }

  ghost function InOwners(m: map<string, OpIO>, names: set<string>): set<OperatorImpl> {
    set k | k in names && k in m :: m[k].owner
  }

  ghost function Members(v: seq<OperatorImpl>): set<OperatorImpl> {
    set x | x in v
  }

  lemma MembersAppend(v: seq<OperatorImpl>, t: seq<OperatorImpl>)
    ensures Members(v + t) == Members(v) + Members(t)
  {
  }

  lemma OwnersAppend(es: seq<OpIO>, e: OpIO)
    ensures Owners(es + [e]) == Owners(es) + {e.owner} && Owners([]) == {}
  {
    assert e in es + [e] && forall x :: x in es ==> x in es + [e];
  }

  lemma OutOwnersMore(m: map<string, seq<OpIO>>, names: set<string>, k: string)
    requires k in m
    ensures OutOwners(m, names + {k}) == OutOwners(m, names) + Owners(m[k]) && OutOwners(m, {}) == {}
  {
    forall x | x in OutOwners(m, names) ensures x in OutOwners(m, names + {k}) {
      var j, e :| j in names && j in m && e in m[j] && e.owner == x;
      assert j in names + {k};
    }
    forall x | x in Owners(m[k]) ensures x in OutOwners(m, names + {k}) {
      var e :| e in m[k] && e.owner == x;
      assert k in names + {k};
    }
    forall x | x in OutOwners(m, names + {k}) ensures x in OutOwners(m, names) + Owners(m[k]) {
      var j, e :| j in names + {k} && j in m && e in m[j] && e.owner == x;
    }
  }

  lemma InOwnersMore(m: map<string, OpIO>, names: set<string>, k: string)
    requires k in m
    ensures InOwners(m, names + {k}) == InOwners(m, names) + {m[k].owner} && InOwners(m, {}) == {}
  {
    assert k in names + {k};
    forall x | x in InOwners(m, names) ensures x in InOwners(m, names + {k}) {
      var j :| j in names && j in m && m[j].owner == x;
      assert j in names + {k};
    }
  }

  ghost function Successors(o: OperatorImpl): set<OperatorImpl>
    reads o
  {
    OutOwners(o.outputLinks, o.outputLinks.Keys) + Members(o.controlOutputs)
  }

  ghost function Predecessors(o: OperatorImpl): set<OperatorImpl>
    reads o
  {
    InOwners(o.inputLink, o.inputLink.Keys) + Members(o.controlInputs)
  }

  ghost function Near(o: OperatorImpl): set<OperatorImpl>
    reads o
  {
    Successors(o) + Predecessors(o)
  }

  // A set of operators that no link leaves.
  ghost predicate ClosedOps(ops: set<OperatorImpl>)
    reads ops
  {
    forall o :: o in ops ==> Near(o) <= ops
  }

  lemma WellWiredCloses(ops: set<OperatorImpl>)
    requires WellWired(ops)
    ensures ClosedOps(ops)
  {
    forall o | o in ops ensures Near(o) <= ops {
      forall x | x in Near(o) ensures x in ops {
        if x in o.controlOutputs {
        } else if x in o.controlInputs {
        } else if x in Successors(o) {
          var k, e :| k in o.outputLinks.Keys && e in o.outputLinks[k] && e.owner == x;
        } else {
          var k :| k in o.inputLink.Keys && o.inputLink[k].owner == x;
        }
      }
    }
  }

  ghost function Queued(que: seq<seq<OperatorImpl>>): set<OperatorImpl> {
    set k, x | 0 <= k < |que| && x in que[k] :: x
  }

  lemma QueuedFirst(que: seq<seq<OperatorImpl>>)
    requires que != []
    ensures Queued(que) == Members(que[0]) + Queued(que[1..])
  {
    forall x | x in Queued(que) ensures x in Members(que[0]) + Queued(que[1..]) {
      var k :| 0 <= k < |que| && x in que[k];
      if k > 0 {
        assert x in que[1..][k - 1];
      }
    }
    forall x | x in Queued(que[1..]) ensures x in Queued(que) {
      var k :| 0 <= k < |que| - 1 && x in que[1..][k];
      assert x in que[k + 1];
    }
    forall x | x in Members(que[0]) ensures x in Queued(que) {
    }
  }

  lemma QueuedMore(que: seq<seq<OperatorImpl>>, v: seq<OperatorImpl>)
    ensures Queued(que + [v]) == Queued(que) + Members(v)
  {
    var r := que + [v];
    forall x | x in Queued(que) ensures x in Queued(r) {
      var k :| 0 <= k < |que| && x in que[k];
      assert x in r[k];
    }
    forall x | x in Members(v) ensures x in Queued(r) {
      assert x in r[|que|];
    }
  }

  // The operators that at most k links, in either direction, lead to from start;
  // ops is any closed set around them.
  ghost function Steps(start: set<OperatorImpl>, ops: set<OperatorImpl>, k: nat): (r: set<OperatorImpl>)
    requires start <= ops && ClosedOps(ops)
    reads ops
    ensures r <= ops
  {
    if k == 0 then start else
    var s := Steps(start, ops, k - 1);
    s + set o, x | o in s && x in Near(o) :: x
  }

  ghost predicate Led(start: set<OperatorImpl>, ops: set<OperatorImpl>, o: OperatorImpl)
    requires start <= ops && ClosedOps(ops)
    reads ops
  {
    exists k: nat :: o in Steps(start, ops, k)
  }

  lemma LedOn(start: set<OperatorImpl>, ops: set<OperatorImpl>, o: OperatorImpl, x: OperatorImpl)
    requires start <= ops && ClosedOps(ops) && Led(start, ops, o) && x in Near(o)
    ensures Led(start, ops, x)
  {
    var k: nat :| o in Steps(start, ops, k);
    assert x in Steps(start, ops, k + 1);
  }

  // Every closed set around the start holds whatever links lead to.
  lemma {:induction false} StepsWithin(start: set<OperatorImpl>, ops: set<OperatorImpl>, s: set<OperatorImpl>, k: nat)
    requires start <= ops && ClosedOps(ops) && start <= s && ClosedOps(s)
    ensures Steps(start, ops, k) <= s
  {
    hide Near;
    if k > 0 {
      StepsWithin(start, ops, s, k - 1);
    }
  }

  // The created operators, with everything next to them and the inputs either
  // created or waiting; links lead to all of it from the inputs.
  ghost predicate Walking(start: set<OperatorImpl>, done: set<OperatorImpl>, waiting: set<OperatorImpl>,
                          ops: set<OperatorImpl>)
    reads ops
  {
    && start <= ops && done + waiting <= ops && ClosedOps(ops)
    && start <= done + waiting && (forall o :: o in done ==> Near(o) <= done + waiting)
    && forall o :: o in done + waiting ==> Led(start, ops, o)
  }

  // One node for every operator, in the order of creation.
  ghost predicate OneNodeEach(m: map<OperatorImpl, Node>, order: seq<OperatorImpl>, nodes: seq<Node>) {
    && |order| == |nodes| && Distinct(order) && Distinct(nodes)
    && (forall i {:trigger order[i]} :: 0 <= i < |order| ==> order[i] in m && m[order[i]] == nodes[i])
    && (forall o :: o in m ==> o in order)
    && (forall o :: o in m ==>
         m[o].name == o.name && m[o].kind == o.kind && m[o].inputs == o.inputs && m[o].outputs == o.outputs)
  }

  lemma OneMoreNode(m: map<OperatorImpl, Node>, order: seq<OperatorImpl>, nodes: seq<Node>, o: OperatorImpl, n: Node)
    requires OneNodeEach(m, order, nodes) && o !in m && n !in nodes
    requires n.name == o.name && n.kind == o.kind && n.inputs == o.inputs && n.outputs == o.outputs
    ensures OneNodeEach(m[o := n], order + [o], nodes + [n])
  {
    forall i | 0 <= i < |order| ensures order[i] != o {
      assert order[i] in m;
    }
  }

  lemma NodesDiffer(m: map<OperatorImpl, Node>, order: seq<OperatorImpl>, nodes: seq<Node>, o: OperatorImpl,
                    x: OperatorImpl)
    requires OneNodeEach(m, order, nodes) && o in m && x in m && m[o] == m[x]
    ensures o == x && m[o] in nodes
  {
    var i :| 0 <= i < |order| && order[i] == o;
    var j :| 0 <= j < |order| && order[j] == x;
  }

  class GraphBuilderImpl {
    const graph: ComputeGraph
    var nodesInfo: map<OperatorImpl, Node>
    ghost var order: seq<OperatorImpl>

    constructor (name: string)
      ensures fresh(graph) && graph.Valid() && nodesInfo == map[] && order == [] && graph.nodes == []
    {
      var g := new ComputeGraph(name);
      graph, nodesInfo, order := g, map[], [];
    }

    method ForwardOf(o: OperatorImpl) returns (v: seq<OperatorImpl>)
      ensures Members(v) == Successors(o)
    {
      v := [];
      var names := o.outputLinks.Keys;
      ghost var seen: set<string> := {};
      hide OutOwners, Members;
      NoOwners();
      while names != {}
        invariant names + seen == o.outputLinks.Keys
        invariant Members(v) == OutOwners(o.outputLinks, seen)
        decreases names
      {
        var name :| name in names;
        var ends := OwnersOf(o.outputLinks[name]);
        OutOwnersMore(o.outputLinks, seen, name);
        MembersAppend(v, ends);
        v := v + ends;
        names := names - {name};
        seen := seen + {name};
      }
      MembersAppend(v, o.controlOutputs);
      v := v + o.controlOutputs;
    }

    method OwnersOf(es: seq<OpIO>) returns (v: seq<OperatorImpl>)
      ensures Members(v) == Owners(es)
    {
      v := [];
      hide Owners, Members;
      NoOwners();
      for k := 0 to |es|
        invariant Members(v) == Owners(es[..k])
      {
        OwnersAppend(es[..k], es[k]);
        assert es[..k + 1] == es[..k] + [es[k]];
        MembersAppend(v, [es[k].owner]);
        OneMember(es[k].owner);
        v := v + [es[k].owner];
      }
      assert es[..|es|] == es;
    }

    method BackwardOf(o: OperatorImpl) returns (v: seq<OperatorImpl>)
      ensures Members(v) == Predecessors(o)
    {
      v := [];
      var names := o.inputLink.Keys;
      ghost var seen: set<string> := {};
      hide InOwners, Members;
      NoOwners();
      while names != {}
        invariant names + seen == o.inputLink.Keys
        invariant Members(v) == InOwners(o.inputLink, seen)
        decreases names
      {
        var name :| name in names;
        InOwnersMore(o.inputLink, seen, name);
        MembersAppend(v, [o.inputLink[name].owner]);
        OneMember(o.inputLink[name].owner);
        v := v + [o.inputLink[name].owner];
        names := names - {name};
        seen := seen + {name};
      }
      MembersAppend(v, o.controlInputs);
      v := v + o.controlInputs;
    }

    // An operator that has no node yet gets one.
    method CreateOne(o: OperatorImpl)
      requires graph.Valid() && o !in nodesInfo && OneNodeEach(nodesInfo, order, graph.nodes) &&
        Bare(View(graph.anchors))
      modifies this`nodesInfo, this`order, graph`nodes, graph`anchors
      ensures graph.Valid() && OneNodeEach(nodesInfo, order, graph.nodes) && Bare(View(graph.anchors))
      ensures nodesInfo.Keys == old(nodesInfo).Keys + {o} && fresh(graph.anchors.Values - old(graph.anchors.Values))
    {
      hide GraphOk, Anchored, View, OneNodeEach, WithNode, Bare;
      ghost var m, ns, g := nodesInfo, graph.nodes, View(graph.anchors);
      var node := graph.AddNode(o.name, o.kind, o.inputs, o.outputs, [], |graph.nodes|);
      BareMore(g, node);
      OneMoreNode(m, order, ns, o, node);
      nodesInfo := nodesInfo[o := node];
      order := order + [o];
    }

    // Its neighbours are queued, those ahead and those behind.
    method QueueNeighbours(o: OperatorImpl, que: seq<seq<OperatorImpl>>) returns (r: seq<seq<OperatorImpl>>)
      ensures Queued(r) == Queued(que) + Near(o)
    {
      hide Queued, Members, Successors, Predecessors;
      var forward := ForwardOf(o);
      QueuedMore(que, forward);
      r := que + [forward];
      var backward := BackwardOf(o);
      QueuedMore(r, backward);
      r := r + [backward];
    }

    ghost predicate Built(start: set<OperatorImpl>, waiting: set<OperatorImpl>, ops: set<OperatorImpl>)
      reads this, graph, graph.anchors.Values, ops
    {
      && graph.Valid() && OneNodeEach(nodesInfo, order, graph.nodes) && Bare(View(graph.anchors))
      && Walking(start, nodesInfo.Keys, waiting, ops)
    }

    // One vector of the queue.
    method WalkVector(v: seq<OperatorImpl>, que: seq<seq<OperatorImpl>>, ghost start: set<OperatorImpl>,
                      ghost ops: set<OperatorImpl>) returns (r: seq<seq<OperatorImpl>>)
      requires ClosedOps(ops) && Built(start, Members(v) + Queued(que), ops)
      modifies this`nodesInfo, this`order, graph`nodes, graph`anchors
      ensures Built(start, Queued(r), ops) && fresh(graph.anchors.Values - old(graph.anchors.Values))
      ensures old(nodesInfo).Keys <= nodesInfo.Keys && (nodesInfo.Keys == old(nodesInfo).Keys ==> r == que)
    {
      r := que;
      hide Queued, Members, OneNodeEach, Bare, GraphOk, Anchored, View, Near, Walking, ClosedOps;
      assert v[0..] == v;
      for k := 0 to |v|
        invariant Built(start, Members(v[k..]) + Queued(r), ops) &&
          fresh(graph.anchors.Values - old(graph.anchors.Values))
        invariant old(nodesInfo).Keys <= nodesInfo.Keys && (nodesInfo.Keys == old(nodesInfo).Keys ==> r == que)
      {
        var o := v[k];
        ghost var done, waiting, q := nodesInfo.Keys, Members(v[k + 1..]), Queued(r);
        MembersFirst(v, k);
        if o !in nodesInfo {
          CreateOne(o);
          r := QueueNeighbours(o, r);
          WalkStep(start, done, o, waiting, q, ops);
        } else {
          WalkSkip(start, done, o, waiting, q, ops);
        }
      }
      assert v[|v|..] == [];
      NoOwners();
      assert Members(v[|v|..]) + Queued(r) == Queued(r);
    }

    // Exactly the operators that links in either direction lead to from the
    // inputs get a node.
    method WalkAllOperators(inputs: seq<OperatorImpl>, ghost ops: set<OperatorImpl>)
      requires ClosedOps(ops) && Members(inputs) <= ops && nodesInfo == map[] && order == []
      requires graph.Valid() && graph.nodes == [] && Bare(View(graph.anchors))
      modifies this`nodesInfo, this`order, graph`nodes, graph`anchors
      ensures Built(Members(inputs), {}, ops) && fresh(graph.anchors.Values - old(graph.anchors.Values))
      ensures Members(inputs) <= nodesInfo.Keys <= ops && ClosedOps(nodesInfo.Keys)
      ensures forall o :: o in nodesInfo <==> Led(Members(inputs), ops, o)
    {
      hide Queued, Members, OneNodeEach, Bare, GraphOk, Anchored, View, ClosedOps, Walking, Built, Distinct, Led;
      var que := [inputs];
      ghost var start, left := Members(inputs), ops - nodesInfo.Keys;
      StartsBuilt(inputs, ops);
      while que != []
        invariant Built(start, Queued(que), ops) && fresh(graph.anchors.Values - old(graph.anchors.Values))
        invariant left == ops - nodesInfo.Keys
        decreases left, |que|
      {
        que := WalkRound(que, start, ops);
        left := ops - nodesInfo.Keys;
      }
      EndsBuilt(start, ops);
    }

    method WalkRound(que: seq<seq<OperatorImpl>>, ghost start: set<OperatorImpl>, ghost ops: set<OperatorImpl>)
        returns (r: seq<seq<OperatorImpl>>)
      requires ClosedOps(ops) && que != [] && Built(start, Queued(que), ops)
      modifies this`nodesInfo, this`order, graph`nodes, graph`anchors
      ensures Built(start, Queued(r), ops) && fresh(graph.anchors.Values - old(graph.anchors.Values))
      ensures ops - nodesInfo.Keys < ops - old(nodesInfo.Keys)
           || (ops - nodesInfo.Keys == ops - old(nodesInfo.Keys) && |r| < |que|)
    {
      hide Queued, Members, OneNodeEach, Bare, GraphOk, Anchored, View, ClosedOps, Walking;
      QueuedFirst(que);
      r := WalkVector(que[0], que[1..], start, ops);
      BuiltWithin(start, nodesInfo.Keys, Queued(r), ops);
      FewerLeft(ops, old(nodesInfo.Keys), nodesInfo.Keys);
    }

    lemma StartsBuilt(inputs: seq<OperatorImpl>, ops: set<OperatorImpl>)
      requires ClosedOps(ops) && Members(inputs) <= ops && nodesInfo == map[] && order == []
      requires graph.Valid() && graph.nodes == [] && Bare(View(graph.anchors))
      ensures Built(Members(inputs), Queued([inputs]), ops)
    {
      QueuedMore([], inputs);
      assert [] + [inputs] == [inputs];
      WalkStarts(Members(inputs), ops);
    }

    lemma EndsBuilt(start: set<OperatorImpl>, ops: set<OperatorImpl>)
      requires Built(start, Queued([]), ops)
      ensures Built(start, {}, ops) && start <= nodesInfo.Keys <= ops && start <= ops && ClosedOps(nodesInfo.Keys)
      ensures ClosedOps(ops) && forall o :: o in nodesInfo <==> Led(start, ops, o)
    {
      WalkEnds(start, nodesInfo.Keys, ops);
    }
  }

  lemma WalkStep(start: set<OperatorImpl>, done: set<OperatorImpl>, o: OperatorImpl, later: set<OperatorImpl>,
                 q: set<OperatorImpl>, ops: set<OperatorImpl>)
    requires ClosedOps(ops) && Walking(start, done, ({o} + later) + q, ops)
    ensures Walking(start, done + {o}, later + (q + Near(o)), ops)
  {
    hide Near, Led;
    forall x | x in Near(o) ensures Led(start, ops, x) {
      LedOn(start, ops, o, x);
    }
  }

  lemma WalkStarts(start: set<OperatorImpl>, ops: set<OperatorImpl>)
    requires ClosedOps(ops) && start <= ops
    ensures Walking(start, {}, start, ops)
  {
    forall o | o in start ensures Led(start, ops, o) {
      assert o in Steps(start, ops, 0);
    }
  }

  lemma WalkSkip(start: set<OperatorImpl>, done: set<OperatorImpl>, o: OperatorImpl, later: set<OperatorImpl>,
                 q: set<OperatorImpl>, ops: set<OperatorImpl>)
    requires Walking(start, done, ({o} + later) + q, ops) && o in done
    ensures Walking(start, done, later + q, ops)
  {
    hide Near, Led;
  }

  lemma MembersFirst(v: seq<OperatorImpl>, k: nat)
    requires k < |v|
    ensures Members(v[k..]) == {v[k]} + Members(v[k + 1..])
  {
    assert v[k..] == [v[k]] + v[k + 1..];
  }

  lemma BuiltWithin(start: set<OperatorImpl>, done: set<OperatorImpl>, waiting: set<OperatorImpl>,
                    ops: set<OperatorImpl>)
    requires Walking(start, done, waiting, ops)
    ensures done <= ops
  {
    hide Near, Led;
  }

  lemma WalkEnds(start: set<OperatorImpl>, done: set<OperatorImpl>, ops: set<OperatorImpl>)
    requires Walking(start, done, Queued([]), ops)
    ensures start <= done <= ops && ClosedOps(done) && Queued([]) == {}
    ensures start <= ops && ClosedOps(ops) && forall o :: o in done <==> Led(start, ops, o)
  {
    hide Near;
    assert Queued([]) == {};
    forall o | Led(start, ops, o) ensures o in done {
      var k: nat :| o in Steps(start, ops, k);
      StepsWithin(start, ops, done, k);
    }
  }

  lemma BareMore(g: Links, n: Node)
    requires Bare(g)
    ensures Bare(WithNode(g, n))
  {
  }

  lemma FewerLeft(ops: set<OperatorImpl>, a: set<OperatorImpl>, b: set<OperatorImpl>)
    requires a <= b <= ops
    ensures ops - b < ops - a || b == a
  {
    if b != a {
      var x :| x in b && x !in a;
      assert x in ops - a && x !in ops - b;
    }
  }

  lemma NoOwners()
    ensures Members([]) == {} && Owners([]) == {}
    ensures forall m :: OutOwners(m, {}) == {}
    ensures forall m :: InOwners(m, {}) == {}
  {
  }

  lemma OneMember(o: OperatorImpl)
    ensures Members([o]) == {o}
  {
  }
}
