// AddEdge of GraphBuilderImpl: the recorded output and control-output links
// become the edges of the graph.
module BuilderEdges {
  import opened Links
  import opened Anchors
  import opened Degrees
  import opened Operators
  import opened GraphBuilders

  // The peers every out port is to get.
  type Plan = map<Port, seq<Port>>

  function DstPorts(m: map<OperatorImpl, Node>, es: seq<OpIO>): (r: seq<Port>)
    requires forall e :: e in es ==> e.owner in m
    ensures |r| == |es|
  {
    seq(|es|, i requires 0 <= i < |es| => InData(m[es[i].owner], es[i].index))
  }

  function CtrlPorts(m: map<OperatorImpl, Node>, os: seq<OperatorImpl>): (r: seq<Port>)
    requires forall o :: o in os ==> o in m
    ensures |r| == |os|
  {
    seq(|os|, i requires 0 <= i < |os| => InCtrl(m[os[i]]))
  }

  // No link is recorded for the output with index i.
  ghost predicate NoOutputAt(o: OperatorImpl, i: nat)
    reads o
  {
    forall x :: x in o.outputLinks && x in o.outputIndex ==> o.outputIndex[x] != i
  }

  // The plan repeats the recorded links: at the port of an output those of the
  // output of that name, at the control port the control-output links, and
  // nothing elsewhere.
  ghost predicate Records(plan: Plan, m: map<OperatorImpl, Node>, o: OperatorImpl)
    requires o in m && WellWired(m.Keys)
    reads m.Keys
  {
    && (forall x {:trigger o.outputLinks[x]} :: x in o.outputLinks ==>
          var p := OutData(m[o], o.outputIndex[x]); p in plan && plan[p] == DstPorts(m, o.outputLinks[x]))
    && OutCtrl(m[o]) in plan && plan[OutCtrl(m[o])] == CtrlPorts(m, o.controlOutputs)
    && (forall i: nat {:trigger OutData(m[o], i)} :: i < o.outputs ==> OutData(m[o], i) in plan)
    && (forall i: nat {:trigger OutData(m[o], i)} :: i < o.outputs && NoOutputAt(o, i) ==> plan[OutData(m[o], i)] == [])
  }

  ghost predicate IsPlan(plan: Plan, m: map<OperatorImpl, Node>)
    requires WellWired(m.Keys)
    reads m.Keys
  {
    (forall o :: o in m ==> Records(plan, m, o)) && forall p :: p in plan ==> p.IsOut()
  }

  // No data input is the end of two planned links.
  ghost predicate NoClash(plan: Plan) {
    forall a, c, i, j ::
      (a in plan && c in plan && 0 <= i < |plan[a]| && 0 <= j < |plan[c]| && plan[a][i] == plan[c][j] &&
        plan[a][i].InData?
       ==> a == c && i == j)
  }

  ghost predicate OneSource(h: Links) {
    forall b {:trigger h[b]} :: b in h && b.InData? ==> |h[b]| <= 1
  }

  ghost predicate PlanFits(plan: Plan, h: Links) {
    && (forall p {:trigger p in plan} :: p in plan ==> p.IsOut() && p in h)
    && (forall p, b {:trigger b in plan[p]} :: p in plan && b in plan[p] ==>
         b in h && b.IsIn() && p.OutData? == b.InData?)
  }

  // The out ports done so far have all their peers, and a the first k of its.
  ghost predicate Adding(h: Links, plan: Plan, done: set<Port>, a: Port, k: nat) {
    && WellLinked(h) && OneSource(h) && PlanFits(plan, h) && a !in done && a in plan && k <= |plan[a]|
    && (forall p {:trigger h[p]} :: p in h && p.IsOut() ==>
          p in plan && h[p] == if p == a then plan[a][..k] else if p in done then plan[p] else [])
  }

  // Between two ports.
  ghost predicate Added(h: Links, plan: Plan, done: set<Port>) {
    && WellLinked(h) && OneSource(h) && PlanFits(plan, h)
    && (forall p {:trigger h[p]} :: p in h && p.IsOut() ==> p in plan && h[p] == if p in done then plan[p] else [])
  }

  lemma PortStarts(h: Links, plan: Plan, done: set<Port>, a: Port)
    requires Added(h, plan, done) && a in plan && a !in done
    ensures Adding(h, plan, done, a, 0)
  {
  }

  lemma PortEnds(h: Links, plan: Plan, done: set<Port>, a: Port)
    requires Adding(h, plan, done, a, if a in plan then |plan[a]| else 0)
    ensures Added(h, plan, done + {a})
  {
  }

  lemma AddingStep(h: Links, plan: Plan, done: set<Port>, a: Port, k: nat)
    requires Adding(h, plan, done, a, k) && k < |plan[a]|
    ensures plan[a][k] in h && plan[a][k].IsIn() && a.IsOut() && a in h
    ensures CanLink(h, a, plan[a][k]) ==> Adding(Linked(h, a, plan[a][k]), plan, done, a, k + 1)
    ensures !CanLink(h, a, plan[a][k]) ==> !NoClash(plan)
  {
    var b := plan[a][k];
    assert b in plan[a] && a in h;
    LinkedKeeps(h, a, b);
    assert plan[a][..k + 1] == plan[a][..k] + [b];
    if !CanLink(h, a, b) {
      assert h[b][0] in h[b];
      PeersAgree(h, b, h[b][0]);
      Clashes(h, plan, done, a, k, h[b][0]);
    }
  }

  // A refused link ends at an input that an earlier link ends at.
  lemma Clashes(h: Links, plan: Plan, done: set<Port>, a: Port, k: nat, c: Port)
    requires Adding(h, plan, done, a, k) && k < |plan[a]| && plan[a][k].InData? && c in h && c.IsOut() &&
      plan[a][k] in h[c]
    ensures !NoClash(plan)
  {
    var j :| 0 <= j < |h[c]| && h[c][j] == plan[a][k];
    assert c in plan && j < |plan[c]| && plan[c][j] == plan[a][k];
    assert c != a || j != k;
  }

  // When every port has its peers, no input was planned twice.
  lemma CompleteNoClash(h: Links, plan: Plan, done: set<Port>)
    requires Added(h, plan, done) && forall p :: p in plan ==> p in h && h[p] == plan[p]
    ensures NoClash(plan)
  {
    forall a, c, i, j | a in plan && c in plan && 0 <= i < |plan[a]| && 0 <= j < |plan[c]|
      && plan[a][i] == plan[c][j] && plan[a][i].InData?
      ensures a == c && i == j
    {
      var b := plan[a][i];
      assert b in h[a] && b in h[c];
      PeersAgree(h, a, b);
      PeersAgree(h, c, b);
      assert |h[b]| <= 1;
      assert Mult(h, a, b) == Mult(h, b, a) <= 1;
      if i != j && a == c {
        Twice(h[a], i, j);
      }
    }
  }

  lemma Twice(s: seq<Port>, i: nat, j: nat)
    requires i < |s| && j < |s| && i != j && s[i] == s[j]
    ensures multiset(s)[s[i]] >= 2
  {
    var lo, hi := if i < j then i else j, if i < j then j else i;
    assert s == s[..lo + 1] + s[lo + 1..];
    assert s[lo] in multiset(s[..lo + 1]) && s[lo + 1..][hi - lo - 1] in multiset(s[lo + 1..]);
  }

  // ---------------------------------------------------------- the plan

  ghost function PlanAt(m: map<OperatorImpl, Node>, p: Port): seq<Port>
    requires WellWired(m.Keys)
    reads m.Keys
  {
    if o :| o in m && m[o] == p.node then OpPlan(m, o, p) else []
  }

  ghost function OpPlan(m: map<OperatorImpl, Node>, o: OperatorImpl, p: Port): seq<Port>
    requires WellWired(m.Keys) && o in m
    reads m.Keys
  {
    if p.OutCtrl? then CtrlPorts(m, o.controlOutputs)
    else if p.OutData? && !NoOutputAt(o, p.idx) then
      var x :| x in o.outputLinks && x in o.outputIndex && o.outputIndex[x] == p.idx;
      DstPorts(m, o.outputLinks[x])
    else []
  }

  ghost function PlanOf(m: map<OperatorImpl, Node>, h: Links): Plan
    requires WellWired(m.Keys)
    reads m.Keys
  {
    map p | p in h && p.IsOut() :: PlanAt(m, p)
  }

  lemma PlanAtOp(m: map<OperatorImpl, Node>, order: seq<OperatorImpl>, nodes: seq<Node>, o: OperatorImpl, p: Port)
    requires WellWired(m.Keys) && OneNodeEach(m, order, nodes) && o in m && p.node == m[o]
    ensures PlanAt(m, p) == OpPlan(m, o, p)
  {
    hide WellWired, OneNodeEach;
    forall x | x in m && m[x] == p.node ensures x == o {
      NodesDiffer(m, order, nodes, o, x);
    }
  }

  lemma OpPlanNamed(m: map<OperatorImpl, Node>, o: OperatorImpl, x: string)
    requires WellWired(m.Keys) && o in m && x in o.outputLinks
    ensures o.outputIndex[x] < o.outputs &&
      OpPlan(m, o, OutData(m[o], o.outputIndex[x])) == DstPorts(m, o.outputLinks[x])
  {
    assert Named(o) && x in o.outputIndex;
    assert !NoOutputAt(o, o.outputIndex[x]);
  }

  lemma PlanRecords(m: map<OperatorImpl, Node>, order: seq<OperatorImpl>, nodes: seq<Node>, h: Links)
    requires WellWired(m.Keys) && OneNodeEach(m, order, nodes) && GraphOk(h, nodes)
    ensures IsPlan(PlanOf(m, h), m)
  {
    var plan := PlanOf(m, h);
    forall o | o in m ensures Records(plan, m, o) {
      NodesDiffer(m, order, nodes, o, o);
      var n := m[o];
      forall i: nat | i < o.outputs
        ensures OutData(n, i) in plan && plan[OutData(n, i)] == OpPlan(m, o, OutData(n, i))
      {
        OwnPort(h, n, OutData(n, i));
        PlanAtOp(m, order, nodes, o, OutData(n, i));
      }
      OwnPort(h, n, OutCtrl(n));
      PlanAtOp(m, order, nodes, o, OutCtrl(n));
      forall x | x in o.outputLinks
        ensures OutData(n, o.outputIndex[x]) in plan &&
          plan[OutData(n, o.outputIndex[x])] == DstPorts(m, o.outputLinks[x])
      {
        OpPlanNamed(m, o, x);
      }
    }
  }

  // The other ends exist: the walk has created every operator that a recorded
  // link leads to.
  lemma PlanEnds(m: map<OperatorImpl, Node>, order: seq<OperatorImpl>, nodes: seq<Node>, h: Links)
    requires WellWired(m.Keys) && OneNodeEach(m, order, nodes) && GraphOk(h, nodes)
    ensures PlanFits(PlanOf(m, h), h)
  {
    var plan := PlanOf(m, h);
    forall p, b | p in plan && b in plan[p] ensures b in h && b.IsIn() && p.OutData? == b.InData? {
      var o :| o in m && m[o] == p.node;
      PlanAtOp(m, order, nodes, o, p);
      OpPlanEnds(m, order, nodes, h, o, p, b);
    }
  }

  lemma OpPlanEnds(m: map<OperatorImpl, Node>, order: seq<OperatorImpl>, nodes: seq<Node>, h: Links, o: OperatorImpl,
                   p: Port, b: Port)
    requires WellWired(m.Keys) && OneNodeEach(m, order, nodes) && GraphOk(h, nodes) && o in m && b in OpPlan(m, o, p)
    ensures b in h && b.IsIn() && p.OutData? == b.InData?
  {
    if p.OutCtrl? {
      var k :| 0 <= k < |o.controlOutputs| && CtrlPorts(m, o.controlOutputs)[k] == b;
      var x := o.controlOutputs[k];
      assert x in o.controlOutputs && x in m;
      NodesDiffer(m, order, nodes, x, x);
      OwnPort(h, m[x], b);
    } else {
      var x :| x in o.outputLinks && x in o.outputIndex && o.outputIndex[x] == p.idx &&
        b in DstPorts(m, o.outputLinks[x]);
      var k :| 0 <= k < |o.outputLinks[x]| && DstPorts(m, o.outputLinks[x])[k] == b;
      var e := o.outputLinks[x][k];
      assert e in o.outputLinks[x] && Named(e.owner);
      NodesDiffer(m, order, nodes, e.owner, e.owner);
      OwnPort(h, m[e.owner], b);
    }
  }

  // ------------------------------------------------------- adding the edges

  ghost predicate Ready(b: GraphBuilderImpl)
    reads b, b.graph, b.graph.anchors.Values, b.nodesInfo.Keys
  {
    WellWired(b.nodesInfo.Keys) && OneNodeEach(b.nodesInfo, b.order, b.graph.nodes) && Anchored(b.graph.anchors)
  }

  ghost predicate Planned(b: GraphBuilderImpl, plan: Plan)
    reads b, b.graph, b.graph.anchors.Values, b.nodesInfo.Keys
  {
    Ready(b) && IsPlan(plan, b.nodesInfo)
  }

  // What the plan says of a recorded output, and of the control links.
  lemma PlannedOutput(b: GraphBuilderImpl, plan: Plan, o: OperatorImpl, name: string)
    requires Planned(b, plan) && o in b.nodesInfo && name in o.outputLinks
    ensures name in o.outputIndex && OutData(b.nodesInfo[o], o.outputIndex[name]) in plan
    ensures forall e :: e in o.outputLinks[name] ==> e.owner in b.nodesInfo
    ensures plan[OutData(b.nodesInfo[o], o.outputIndex[name])] == DstPorts(b.nodesInfo, o.outputLinks[name])
    ensures Anchored(b.graph.anchors)
  {
    assert Records(plan, b.nodesInfo, o);
    forall e | e in o.outputLinks[name] ensures e.owner in b.nodesInfo {
      assert e.owner in b.nodesInfo.Keys;
    }
  }

  lemma PlannedControls(b: GraphBuilderImpl, plan: Plan, o: OperatorImpl)
    requires Planned(b, plan) && o in b.nodesInfo
    ensures OutCtrl(b.nodesInfo[o]) in plan && forall x :: x in o.controlOutputs ==> x in b.nodesInfo
    ensures plan[OutCtrl(b.nodesInfo[o])] == CtrlPorts(b.nodesInfo, o.controlOutputs) && Anchored(b.graph.anchors)
  {
    assert Records(plan, b.nodesInfo, o);
    forall x | x in o.controlOutputs ensures x in b.nodesInfo {
      assert x in b.nodesInfo.Keys;
    }
  }

  lemma StillPlanned(b: GraphBuilderImpl, plan: Plan)
    requires WellWired(b.nodesInfo.Keys) && OneNodeEach(b.nodesInfo, b.order, b.graph.nodes)
    requires IsPlan(plan, b.nodesInfo) && Anchored(b.graph.anchors)
    ensures Planned(b, plan)
  {
  }

  // The edge for one recorded end; a missing node or anchor fails, and so does
  // an occupied input.
  method AddOne(b: GraphBuilderImpl, a: Port, e: OpIO) returns (ok: bool)
    requires Anchored(b.graph.anchors) && a in b.graph.anchors && a.IsOut()
    modifies b.graph.anchors.Values`peers
    ensures Anchored(b.graph.anchors)
    ensures var g, m := old(View(b.graph.anchors)), b.nodesInfo;
      && ok == (e.owner in m && InData(m[e.owner], e.index) in g && CanLink(g, a, InData(m[e.owner], e.index)))
      && View(b.graph.anchors) == if ok then Linked(g, a, InData(m[e.owner], e.index)) else g
  {
    if e.owner !in b.nodesInfo {
      return false;
    }
    var dst := InData(b.nodesInfo[e.owner], e.index);
    if dst !in b.graph.anchors {
      return false;
    }
    ok := b.graph.anchors[a].LinkTo(b.graph.anchors[dst], b.graph.anchors);
  }

  method AddOutput(b: GraphBuilderImpl, o: OperatorImpl, name: string, ghost plan: Plan, ghost done: set<Port>)
      returns (ok: bool)
    requires Planned(b, plan) && o in b.nodesInfo && name in o.outputLinks && name in o.outputIndex
    requires Added(View(b.graph.anchors), plan, done) && OutData(b.nodesInfo[o], o.outputIndex[name]) !in done
    modifies b.graph.anchors.Values`peers
    ensures Planned(b, plan)
    ensures ok ==> Added(View(b.graph.anchors), plan, done + {OutData(b.nodesInfo[o], o.outputIndex[name])})
    ensures !ok ==> !NoClash(plan)
  {
    PlannedOutput(b, plan, o, name);
    var a := OutData(b.nodesInfo[o], o.outputIndex[name]);
    ok := AddEnds(b, a, o.outputLinks[name], plan, done);
  }

  // The ends recorded for one output, in order.
  method AddEnds(b: GraphBuilderImpl, a: Port, ends: seq<OpIO>, ghost plan: Plan, ghost done: set<Port>)
      returns (ok: bool)
    requires Anchored(b.graph.anchors) && (forall e :: e in ends ==> e.owner in b.nodesInfo)
    requires a in plan && plan[a] == DstPorts(b.nodesInfo, ends) && a !in done
    requires Added(View(b.graph.anchors), plan, done)
    modifies b.graph.anchors.Values`peers
    ensures Anchored(b.graph.anchors)
    ensures ok ==> Added(View(b.graph.anchors), plan, done + {a})
    ensures !ok ==> !NoClash(plan)
  {
    PortStarts(View(b.graph.anchors), plan, done, a);
    hide Added, Adding, NoClash, Anchored, View;
    ok := true;
    for k := 0 to |ends|
      invariant Anchored(b.graph.anchors) && Adding(View(b.graph.anchors), plan, done, a, k) && ok
    {
      AddingStep(View(b.graph.anchors), plan, done, a, k);
      assert ends[k] in ends;
      ok := AddOne(b, a, ends[k]);
      if !ok {
        return;
      }
    }
    PortEnds(View(b.graph.anchors), plan, done, a);
  }

  method AddControls(b: GraphBuilderImpl, o: OperatorImpl, ghost plan: Plan, ghost done: set<Port>) returns (ok: bool)
    requires Planned(b, plan) && o in b.nodesInfo
    requires Added(View(b.graph.anchors), plan, done) && OutCtrl(b.nodesInfo[o]) !in done
    modifies b.graph.anchors.Values`peers
    ensures Planned(b, plan)
    ensures ok ==> Added(View(b.graph.anchors), plan, done + {OutCtrl(b.nodesInfo[o])})
    ensures !ok ==> !NoClash(plan)
  {
    PlannedControls(b, plan, o);
    ok := AddControlEnds(b, OutCtrl(b.nodesInfo[o]), o.controlOutputs, plan, done);
  }

  method AddControlEnds(b: GraphBuilderImpl, a: Port, ends: seq<OperatorImpl>, ghost plan: Plan, ghost done: set<Port>)
      returns (ok: bool)
    requires Anchored(b.graph.anchors) && (forall x :: x in ends ==> x in b.nodesInfo)
    requires a in plan && plan[a] == CtrlPorts(b.nodesInfo, ends) && a !in done
    requires Added(View(b.graph.anchors), plan, done)
    modifies b.graph.anchors.Values`peers
    ensures Anchored(b.graph.anchors)
    ensures ok ==> Added(View(b.graph.anchors), plan, done + {a})
    ensures !ok ==> !NoClash(plan)
  {
    PortStarts(View(b.graph.anchors), plan, done, a);
    hide Added, Adding, NoClash, Anchored, View;
    ok := true;
    for k := 0 to |ends|
      invariant Anchored(b.graph.anchors) && Adding(View(b.graph.anchors), plan, done, a, k) && ok
    {
      AddingStep(View(b.graph.anchors), plan, done, a, k);
      assert ends[k] in ends;
      ok := AddOneControl(b, a, ends[k]);
      if !ok {
        return;
      }
    }
    PortEnds(View(b.graph.anchors), plan, done, a);
  }

  method AddOneControl(b: GraphBuilderImpl, a: Port, x: OperatorImpl) returns (ok: bool)
    requires Anchored(b.graph.anchors) && a in b.graph.anchors && a.IsOut()
    modifies b.graph.anchors.Values`peers
    ensures Anchored(b.graph.anchors)
    ensures var g, m := old(View(b.graph.anchors)), b.nodesInfo;
      && ok == (x in m && InCtrl(m[x]) in g && CanLink(g, a, InCtrl(m[x])))
      && View(b.graph.anchors) == if ok then Linked(g, a, InCtrl(m[x])) else g
  {
    if x !in b.nodesInfo {
      return false;
    }
    var dst := InCtrl(b.nodesInfo[x]);
    if dst !in b.graph.anchors {
      return false;
    }
    ok := b.graph.anchors[a].LinkTo(b.graph.anchors[dst], b.graph.anchors);
  }

  // The ports of o that links are recorded for.
  ghost function PortsFor(m: map<OperatorImpl, Node>, o: OperatorImpl, names: set<string>): set<Port>
    requires o in m
  {
    set x | x in names && x in o.outputIndex :: OutData(m[o], o.outputIndex[x])
  }

  // All recorded links of one operator.
  method AddEdgesOf(b: GraphBuilderImpl, o: OperatorImpl, ghost plan: Plan, ghost done: set<Port>) returns (ok: bool)
    requires Planned(b, plan) && o in b.nodesInfo
    requires Added(View(b.graph.anchors), plan, done) && forall p :: p in done ==> p.node != b.nodesInfo[o]
    modifies b.graph.anchors.Values`peers
    ensures Planned(b, plan)
    ensures ok ==> Added(View(b.graph.anchors), plan,
                         done + PortsFor(b.nodesInfo, o, o.outputLinks.Keys) + {OutCtrl(b.nodesInfo[o])})
    ensures !ok ==> !NoClash(plan)
  {
    ghost var m, names := b.nodesInfo, o.outputLinks.Keys;
    PortsForData(m, o, names);
    hide Added, NoClash, Planned, View, PortsFor;
    ok := AddOutputs(b, o, plan, done);
    if ok {
      ok := AddControls(b, o, plan, done + PortsFor(m, o, names));
    }
  }

  method AddOutputs(b: GraphBuilderImpl, o: OperatorImpl, ghost plan: Plan, ghost done: set<Port>) returns (ok: bool)
    requires Planned(b, plan) && o in b.nodesInfo
    requires Added(View(b.graph.anchors), plan, done) && forall p :: p in done ==> p.node != b.nodesInfo[o]
    modifies b.graph.anchors.Values`peers
    ensures Planned(b, plan)
    ensures ok ==> Added(View(b.graph.anchors), plan, done + PortsFor(b.nodesInfo, o, o.outputLinks.Keys))
    ensures !ok ==> !NoClash(plan)
  {
    var names := o.outputLinks.Keys;
    ghost var m, all := b.nodesInfo, names;
    NothingSeen(m, o, done, all);
    OutputsNamed(m, o);
    hide Added, NoClash, Planned, View, PortsFor, Named;
    ok := true;
    while names != {}
      invariant ok && names <= all && Planned(b, plan)
      invariant Added(View(b.graph.anchors), plan, done + PortsFor(m, o, all - names))
      decreases names
    {
      var name :| name in names;
      SeenStep(m, o, done, all, names, name);
      ok := AddOutput(b, o, name, plan, done + PortsFor(m, o, all - names));
      if !ok {
        return;
      }
      names := names - {name};
    }
    assert all - {} == all;
  }

  lemma NothingSeen(m: map<OperatorImpl, Node>, o: OperatorImpl, done: set<Port>, all: set<string>)
    requires o in m
    ensures done + PortsFor(m, o, all - all) == done
  {
    assert all - all == {};
    assert PortsFor(m, o, {}) == {};
  }

  lemma SeenStep(m: map<OperatorImpl, Node>, o: OperatorImpl, done: set<Port>, all: set<string>, names: set<string>,
                 x: string)
    requires o in m && Named(o) && x in o.outputIndex && x in names && names <= all
    requires forall p :: p in done ==> p.node != m[o]
    ensures OutData(m[o], o.outputIndex[x]) !in done + PortsFor(m, o, all - names)
    ensures done + PortsFor(m, o, all - names) + {OutData(m[o], o.outputIndex[x])} ==
      done + PortsFor(m, o, all - (names - {x}))
  {
    hide PortsFor;
    PortsForMore(m, o, all - names, x);
    assert all - names + {x} == all - (names - {x});
    Associate(done, PortsFor(m, o, all - names), {OutData(m[o], o.outputIndex[x])});
  }

  lemma Associate(a: set<Port>, b: set<Port>, c: set<Port>)
    ensures a + b + c == a + (b + c)
  {
  }

  lemma OutputsNamed(m: map<OperatorImpl, Node>, o: OperatorImpl)
    requires WellWired(m.Keys) && o in m
    ensures Named(o) && forall x :: x in o.outputLinks ==> x in o.outputIndex
  {
  }

  lemma PortsForMore(m: map<OperatorImpl, Node>, o: OperatorImpl, names: set<string>, x: string)
    requires o in m && Named(o) && x in o.outputIndex && x !in names
    ensures PortsFor(m, o, names + {x}) == PortsFor(m, o, names) + {OutData(m[o], o.outputIndex[x])}
    ensures OutData(m[o], o.outputIndex[x]) !in PortsFor(m, o, names)
  {
    forall p | p in PortsFor(m, o, names) ensures p in PortsFor(m, o, names + {x}) {
      var y :| y in names && y in o.outputIndex && p == OutData(m[o], o.outputIndex[y]);
      assert y in names + {x};
    }
    assert x in names + {x};
  }

  lemma PortsForData(m: map<OperatorImpl, Node>, o: OperatorImpl, names: set<string>)
    requires o in m
    ensures forall p :: p in PortsFor(m, o, names) ==> p.OutData? && p.node == m[o]
  {
  }

  // Every operator outside todo has its ports in done, and done has no port of
  // an operator in todo.
  ghost predicate DoneOps(m: map<OperatorImpl, Node>, done: set<Port>, todo: set<OperatorImpl>)
    reads m.Keys
  {
    && (forall o, p {:trigger o in todo, p in done} :: o in todo && o in m && p in done ==> p.node != m[o])
    && (forall o :: o in m && o !in todo ==> PortsFor(m, o, o.outputLinks.Keys) <= done && OutCtrl(m[o]) in done)
  }

  // AddEdge succeeds exactly when no data input is linked twice, and then the
  // out-anchors have exactly the recorded links, in their order.
  method AddEdge(b: GraphBuilderImpl) returns (ok: bool)
    requires Ready(b) && b.graph.Valid() && Bare(View(b.graph.anchors))
    modifies b.graph.anchors.Values`peers
    ensures Anchored(b.graph.anchors)
    ensures IsPlan(PlanOf(b.nodesInfo, old(View(b.graph.anchors))), b.nodesInfo)
    ensures ok <==> NoClash(PlanOf(b.nodesInfo, old(View(b.graph.anchors))))
    ensures ok ==> Complete(View(b.graph.anchors), PlanOf(b.nodesInfo, old(View(b.graph.anchors))))
  {
    hide Added, NoClash, WellWired, OneNodeEach, IsPlan, Anchored, View, PlanOf, DoneOps, Complete, Planned, Bare,
      GraphOk;
    ghost var g, m := View(b.graph.anchors), b.nodesInfo;
    ghost var plan := PlanOf(m, g);
    ghost var done;
    PlanStarts(b);
    hide Ready;
    ok, done := AddAll(b, plan);
    PlannedParts(b, plan);
    if ok {
      AllDone(m, b.order, b.graph.nodes, g, View(b.graph.anchors), plan, done);
    }
  }

  lemma PlanStarts(b: GraphBuilderImpl)
    requires Ready(b) && b.graph.Valid() && Bare(View(b.graph.anchors))
    ensures var plan := PlanOf(b.nodesInfo, View(b.graph.anchors));
      && IsPlan(plan, b.nodesInfo) && Planned(b, plan) && Added(View(b.graph.anchors), plan, {})
      && GraphOk(View(b.graph.anchors), b.graph.nodes)
  {
    hide Added, WellWired, OneNodeEach, IsPlan, Anchored, View, Planned, Bare, GraphOk;
    var g, m := View(b.graph.anchors), b.nodesInfo;
    PlanRecords(m, b.order, b.graph.nodes, g);
    PlanEnds(m, b.order, b.graph.nodes, g);
    BareAdded(g, PlanOf(m, g));
    StillPlanned(b, PlanOf(m, g));
  }

  lemma PlannedParts(b: GraphBuilderImpl, plan: Plan)
    requires Planned(b, plan)
    ensures WellWired(b.nodesInfo.Keys) && OneNodeEach(b.nodesInfo, b.order, b.graph.nodes)
    ensures IsPlan(plan, b.nodesInfo) && Anchored(b.graph.anchors)
  {
  }

  ghost predicate Between(b: GraphBuilderImpl, plan: Plan, done: set<Port>, todo: set<OperatorImpl>)
    reads b, b.graph, b.graph.anchors.Values, b.nodesInfo.Keys
  {
    Planned(b, plan) && Added(View(b.graph.anchors), plan, done) && DoneOps(b.nodesInfo, done, todo)
  }

  method AddAll(b: GraphBuilderImpl, ghost plan: Plan) returns (ok: bool, ghost done: set<Port>)
    requires Planned(b, plan) && Added(View(b.graph.anchors), plan, {})
    modifies b.graph.anchors.Values`peers
    ensures Planned(b, plan)
    ensures if ok then Added(View(b.graph.anchors), plan, done) && DoneOps(b.nodesInfo, done, {}) else !NoClash(plan)
  {
    var todo := b.nodesInfo.Keys;
    NoneDone(b.nodesInfo);
    done := {};
    ok := true;
    assert Between(b, plan, done, todo);
    hide Added, NoClash, Planned, View, PortsFor, DoneOps;
    while todo != {}
      invariant ok && todo <= b.nodesInfo.Keys && Between(b, plan, done, todo)
      decreases todo
    {
      var o :| o in todo;
      ok, done := AddNext(b, o, plan, done, todo);
      if !ok {
        return;
      }
      todo := todo - {o};
    }
  }

  method AddNext(b: GraphBuilderImpl, o: OperatorImpl, ghost plan: Plan, ghost before: set<Port>,
                 ghost todo: set<OperatorImpl>)
      returns (ok: bool, ghost done: set<Port>)
    requires Between(b, plan, before, todo) && o in todo && todo <= b.nodesInfo.Keys
    modifies b.graph.anchors.Values`peers
    ensures Planned(b, plan) && if ok then Between(b, plan, done, todo - {o}) else !NoClash(plan)
  {
    ghost var m := b.nodesInfo;
    PlannedParts(b, plan);
    OneDone(m, b.order, b.graph.nodes, before, todo, o);
    hide Added, NoClash, Planned, View, PortsFor, DoneOps, WellWired, IsPlan, OneNodeEach, Anchored;
    done := before + PortsFor(m, o, o.outputLinks.Keys) + {OutCtrl(m[o])};
    ok := AddEdgesOf(b, o, plan, before);
  }

  // Every out port has its planned peers, and the peer lists agree.
  ghost predicate Complete(h: Links, plan: Plan) {
    WellLinked(h) && OneSource(h) && forall p {:trigger plan[p]} :: p in plan ==> p in h && h[p] == plan[p]
  }

  lemma BareAdded(g: Links, plan: Plan)
    requires Bare(g) && PlanFits(plan, g) && forall p :: p in g && p.IsOut() ==> p in plan
    ensures Added(g, plan, {})
  {
  }

  lemma NoneDone(m: map<OperatorImpl, Node>)
    ensures DoneOps(m, {}, m.Keys)
  {
  }

  lemma OneDone(m: map<OperatorImpl, Node>, order: seq<OperatorImpl>, nodes: seq<Node>, done: set<Port>,
                todo: set<OperatorImpl>, o: OperatorImpl)
    requires OneNodeEach(m, order, nodes) && DoneOps(m, done, todo) && o in todo && todo <= m.Keys
    ensures DoneOps(m, done + PortsFor(m, o, o.outputLinks.Keys) + {OutCtrl(m[o])}, todo - {o})
    ensures forall p :: p in done ==> p.node != m[o]
  {
    hide OneNodeEach;
    forall x | x in todo - {o} ensures m[x] != m[o] {
      if m[x] == m[o] {
        NodesDiffer(m, order, nodes, o, x);
      }
    }
  }

  lemma AllDone(m: map<OperatorImpl, Node>, order: seq<OperatorImpl>, nodes: seq<Node>, g: Links, h: Links, plan: Plan,
                done: set<Port>)
    requires WellWired(m.Keys) && OneNodeEach(m, order, nodes) && plan == PlanOf(m, g) && IsPlan(plan, m)
    requires Added(h, plan, done) && DoneOps(m, done, {})
    ensures Complete(h, plan) && NoClash(plan)
  {
    forall p | p in plan ensures p in h && h[p] == plan[p] {
      if p !in done {
        NotPlanned(m, order, nodes, done, p);
      }
    }
    CompleteNoClash(h, plan, done);
  }

  lemma RecordedPort(m: map<OperatorImpl, Node>, o: OperatorImpl, i: nat)
    requires o in m
    ensures NoOutputAt(o, i) || OutData(m[o], i) in PortsFor(m, o, o.outputLinks.Keys)
  {
  }

  lemma NotPlanned(m: map<OperatorImpl, Node>, order: seq<OperatorImpl>, nodes: seq<Node>, done: set<Port>, p: Port)
    requires WellWired(m.Keys) && OneNodeEach(m, order, nodes) && DoneOps(m, done, {}) && p !in done && p.IsOut()
    ensures PlanAt(m, p) == []
  {
    if o :| o in m && m[o] == p.node {
      PlanAtOp(m, order, nodes, o, p);
      if p.OutData? {
        RecordedPort(m, o, p.idx);
      }
    }
  }

  // -------------------------------------------------------- whole graphs

  lemma PartWired(ops: set<OperatorImpl>, part: set<OperatorImpl>)
    requires WellWired(ops) && part <= ops && ClosedOps(part)
    ensures WellWired(part)
  {
    hide OutOwners, InOwners, Members;
    forall o, x, e | o in part && x in o.outputLinks && e in o.outputLinks[x] ensures e.owner in part {
      NearOwner(o, x, e);
      assert Near(o) <= part;
    }
    forall o, x | o in part && x in o.inputLink ensures o.inputLink[x].owner in part {
      NearSource(o, x);
      assert Near(o) <= part;
    }
    forall o, c | o in part && (c in o.controlInputs || c in o.controlOutputs) ensures c in part {
      NearControl(o, c);
      assert Near(o) <= part;
    }
  }

  lemma NearOwner(o: OperatorImpl, x: string, e: OpIO)
    requires x in o.outputLinks && e in o.outputLinks[x]
    ensures e.owner in Near(o)
  {
    assert x in o.outputLinks.Keys;
  }

  lemma NearSource(o: OperatorImpl, x: string)
    requires x in o.inputLink
    ensures o.inputLink[x].owner in Near(o)
  {
    assert x in o.inputLink.Keys;
  }

  lemma NearControl(o: OperatorImpl, c: OperatorImpl)
    requires c in o.controlInputs || c in o.controlOutputs
    ensures c in Near(o)
  {
  }

  // One node for each operator that links in either direction lead to from the
  // inputs, and these operators are wired among themselves.
  ghost predicate NodesFor(b: GraphBuilderImpl, inputs: seq<OperatorImpl>, ops: set<OperatorImpl>)
    reads b, b.graph, ops, b.nodesInfo.Keys
  {
    && Members(inputs) <= ops && ClosedOps(ops) &&
         (forall o :: o in ops ==> (o in b.nodesInfo <==> Led(Members(inputs), ops, o)))
    && Members(inputs) <= b.nodesInfo.Keys <= ops && ClosedOps(b.nodesInfo.Keys)
    && OneNodeEach(b.nodesInfo, b.order, b.graph.nodes) && WellWired(b.nodesInfo.Keys)
  }

  method CreateNodes(b: GraphBuilderImpl, inputs: seq<OperatorImpl>, ghost ops: set<OperatorImpl>)
    requires WellWired(ops) && Members(inputs) <= ops && b.nodesInfo == map[] && b.order == []
    requires b.graph.Valid() && b.graph.nodes == [] && Bare(View(b.graph.anchors))
    modifies b`nodesInfo, b`order, b.graph`nodes, b.graph`anchors
    ensures NodesFor(b, inputs, ops) && Ready(b) && b.graph.Valid() && Bare(View(b.graph.anchors))
    ensures fresh(b.graph.anchors.Values - old(b.graph.anchors.Values))
  {
    hide Bare, OneNodeEach, Anchored, View, GraphOk, Members, Near, Led, ClosedOps, WellWired, Walking;
    WellWiredCloses(ops);
    b.WalkAllOperators(inputs, ops);
    BuiltReady(b, inputs, ops);
  }

  // BuildGraph: those nodes, and the recorded links as edges.
  method BuildGraph(b: GraphBuilderImpl, inputs: seq<OperatorImpl>, ghost ops: set<OperatorImpl>)
      returns (ok: bool, ghost plan: Plan)
    requires WellWired(ops) && Members(inputs) <= ops && b.nodesInfo == map[] && b.order == []
    requires b.graph.Valid() && b.graph.nodes == [] && Bare(View(b.graph.anchors))
    modifies b`nodesInfo, b`order, b.graph`nodes, b.graph`anchors, b.graph.anchors.Values`peers
    ensures inputs == [] ==> !ok
    ensures inputs != [] ==>
      NodesFor(b, inputs, ops) && IsPlan(plan, b.nodesInfo) && (ok <==> NoClash(plan)) && Anchored(b.graph.anchors)
    ensures ok ==> Complete(View(b.graph.anchors), plan)
  {
    hide Bare, Anchored, View, GraphOk, NoClash, Complete, IsPlan, WellWired, NodesFor, Members;
    plan := map[];
    ok := false;
    if inputs != [] {
      ok, plan := BuildFrom(b, inputs, ops);
    }
  }

  method BuildFrom(b: GraphBuilderImpl, inputs: seq<OperatorImpl>, ghost ops: set<OperatorImpl>)
      returns (ok: bool, ghost plan: Plan)
    requires WellWired(ops) && Members(inputs) <= ops && b.nodesInfo == map[] && b.order == []
    requires b.graph.Valid() && b.graph.nodes == [] && Bare(View(b.graph.anchors))
    modifies b`nodesInfo, b`order, b.graph`nodes, b.graph`anchors, b.graph.anchors.Values`peers
    ensures NodesFor(b, inputs, ops) && IsPlan(plan, b.nodesInfo)
    ensures (ok <==> NoClash(plan)) && Anchored(b.graph.anchors)
    ensures ok ==> Complete(View(b.graph.anchors), plan)
  {
    hide Bare, Anchored, View, GraphOk, NoClash, Complete, PlanOf, IsPlan, WellWired, Ready, NodesFor, Members;
    CreateNodes(b, inputs, ops);
    WiredNodes(b, inputs, ops);
    plan := PlanOf(b.nodesInfo, View(b.graph.anchors));
    ok := AddEdge(b);
  }

  lemma WiredNodes(b: GraphBuilderImpl, inputs: seq<OperatorImpl>, ops: set<OperatorImpl>)
    requires NodesFor(b, inputs, ops)
    ensures WellWired(b.nodesInfo.Keys)
  {
  }

  lemma BuiltReady(b: GraphBuilderImpl, inputs: seq<OperatorImpl>, ops: set<OperatorImpl>)
    requires WellWired(ops) && b.Built(Members(inputs), {}, ops)
    requires b.nodesInfo.Keys <= ops && ClosedOps(b.nodesInfo.Keys)
    ensures Ready(b) && b.graph.Valid() && Bare(View(b.graph.anchors)) && WellWired(b.nodesInfo.Keys)
    ensures OneNodeEach(b.nodesInfo, b.order, b.graph.nodes)
  {
    hide WellWired, Walking, ClosedOps, OneNodeEach, GraphOk, View, Bare;
    PartWired(ops, b.nodesInfo.Keys);
  }

  // Two nodes of one graph share a name.
  predicate Namesakes(nodes: seq<Node>) {
    exists i, j :: 0 <= i < j < |nodes| && nodes[i].name == nodes[j].name
  }

  method HasNamesakes(nodes: seq<Node>) returns (same: bool)
    ensures same <==> Namesakes(nodes)
  {
    var names: set<string> := {};
    for k := 0 to |nodes|
      invariant forall i :: 0 <= i < k ==> nodes[i].name in names
      invariant forall x :: x in names ==> exists i :: 0 <= i < k && nodes[i].name == x
      invariant forall i, j :: 0 <= i < j < k ==> nodes[i].name != nodes[j].name
    {
      if nodes[k].name in names {
        return true;
      }
      names := names + {nodes[k].name};
    }
    return false;
  }

  // Each subgraph is looked at by itself, and so is the graph.
  method HasSameNameNode(subgraphs: seq<seq<Node>>, nodes: seq<Node>) returns (same: bool)
    ensures same <==> Namesakes(nodes) || exists k :: 0 <= k < |subgraphs| && Namesakes(subgraphs[k])
  {
    for k := 0 to |subgraphs|
      invariant forall j :: 0 <= j < k ==> !Namesakes(subgraphs[j])
    {
      same := HasNamesakes(subgraphs[k]);
      if same {
        return;
      }
    }
    same := HasNamesakes(nodes);
  }
}
