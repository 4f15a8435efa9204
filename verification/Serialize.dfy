// ModelSerializeImp: a graph is written as messages whose edges are texts, and
// read back in two passes, first the nodes and then the links.
module Serialization {
  import opened Links
  import opened Anchors
  import opened Degrees
  import opened Rewiring
  import opened NodeIndex
  import opened EdgeTexts
  import opened ComputeGraphs

  // ------------------------------------------------------- specification

  function OpText(g: Links, n: Node, id: int): OpDef {
    OpDef(n.name, n.kind, id, n.inputs, n.outputs, n.subgraphs, EdgeTextsOf(g, n))
  }

  function InputTexts(ns: seq<Node>): (r: seq<string>)
    ensures |r| == |ns|
  {
    if ns == [] then [] else InputTexts(Front(ns)) + [Last(ns).name + ":0"]
  }

  function OutputTexts(outs: seq<(Node, int)>): (r: seq<string>)
    ensures |r| == |outs|
  {
    if outs == [] then [] else OutputTexts(Front(outs)) + [Last(outs).0.name + ":" + ToString(Last(outs).1)]
  }

  // The names and indices that graph inputs and outputs refer to.
  function References(texts: seq<string>): seq<(string, int)> {
    if texts == [] then [] else
    var p := ParseNodeIndex(Last(texts));
    References(Front(texts)) + if p.Parsed? then [(p.name, p.index)] else []
  }

  // The requests of the first k messages, whose nodes are ws.
  function AllRequests(ops: seq<OpDef>, ws: seq<Node>, k: nat): seq<Req>
    requires k <= |ops| && k <= |ws|
  {
    if k == 0 then [] else AllRequests(ops, ws, k - 1) + Requests(ops[k - 1].input, ws[k - 1])
  }

  function NameMap(ws: seq<Node>): map<string, Node> {
    if ws == [] then map[] else NameMap(Front(ws))[Last(ws).name := Last(ws)]
  }

  function BareLinks(ws: seq<Node>): Links {
    if ws == [] then map[] else WithNode(BareLinks(Front(ws)), Last(ws))
  }

  ghost predicate BuiltFrom(w: Node, op: OpDef)
    reads w
  {
    && w.name == op.name && w.kind == op.kind && w.inputs == op.inputs && w.outputs == op.outputs
    && w.subgraphs == op.subgraphs && w.id == op.id
  }

  predicate AllKnown(m: map<string, Node>, refs: seq<(string, int)>) {
    forall i :: 0 <= i < |refs| ==> refs[i].0 in m
  }

  function NodesOf(m: map<string, Node>, refs: seq<(string, int)>): (r: seq<Node>)
    requires AllKnown(m, refs)
    ensures |r| == |refs|
  {
    seq(|refs|, i requires 0 <= i < |refs| => m[refs[i].0])
  }

  function OutputsOf(m: map<string, Node>, refs: seq<(string, int)>): seq<(Node, int)>
    requires AllKnown(m, refs)
  {
    if refs == [] then [] else
    assert refs[|refs| - 1] == Last(refs);
    WithOutput(OutputsOf(m, Front(refs)), m[Last(refs).0], Last(refs).1)
  }

  // ------------------------------------------------------------ operations

  class ModelSerializeImp {
    var requests: seq<Req>
    var graphInputs: seq<(string, int)>
    var graphOutputs: seq<(string, int)>
    var nodeMap: map<string, Node>

    constructor ()
      ensures Idle()
    {
      requests, graphInputs, graphOutputs, nodeMap := [], [], [], map[];
    }

    ghost predicate Idle()
      reads this
    {
      requests == [] && graphInputs == [] && graphOutputs == [] && nodeMap == map[]
    }

    method SerializeEdge(graph: ComputeGraph, n: Node) returns (texts: seq<string>)
      requires graph.Valid() && n in graph.nodes
      ensures texts == EdgeTextsOf(View(graph.anchors), n)
    {
      hide GraphOk, Anchored, View, OutCtrlOf, DataTexts, CtrlTexts;
      texts := SerializeDataEdges(graph, n);
      var control := SerializeControlEdges(graph, n);
      texts := texts + control;
    }

    method SerializeControlEdges(graph: ComputeGraph, n: Node) returns (texts: seq<string>)
      requires graph.Valid() && n in graph.nodes
      ensures texts == CtrlTexts(OutCtrlOf(At(View(graph.anchors), InCtrl(n))))
    {
      ghost var g := View(graph.anchors);
      OwnPort(g, n, InCtrl(n));
      var control := graph.anchors[InCtrl(n)];
      assert g[InCtrl(n)] == PortsOf(control.peers);
      hide GraphOk, Anchored, View, OutCtrlOf;
      var peers := control.GetPeerOutControlAnchors();
      ghost var ps := PortsOf(peers);
      texts := [];
      for k := 0 to |peers|
        invariant texts == CtrlTexts(ps[..k])
      {
        assert Front(ps[..k + 1]) == ps[..k];
        texts := texts + [peers[k].port.node.name + ":-1"];
      }
      assert ps[..|peers|] == ps;
    }

    method SerializeDataEdges(graph: ComputeGraph, n: Node) returns (texts: seq<string>)
      requires graph.Valid() && n in graph.nodes
      ensures texts == DataTexts(View(graph.anchors), n, n.inputs)
    {
      ghost var g := View(graph.anchors);
      texts := [];
      for k := 0 to n.inputs
        invariant texts == DataTexts(g, n, k)
      {
        var t := SerializeDataEdge(graph, n, k);
        texts := texts + [t];
      }
    }

    method SerializeDataEdge(graph: ComputeGraph, n: Node, k: nat) returns (t: string)
      requires graph.Valid() && n in graph.nodes && k < n.inputs
      ensures var g, p := View(graph.anchors), InData(n, k);
        t == if HasSource(g, p) then g[p][0].node.name + ":" + ToString(g[p][0].idx) else ""
    {
      ghost var g := View(graph.anchors);
      OwnPort(g, n, InData(n, k));
      var anchor := graph.anchors[InData(n, k)];
      assert g[InData(n, k)] == PortsOf(anchor.peers);
      t := "";
      if anchor.peers != [] && anchor.peers[0].port.OutData? {
        t := anchor.peers[0].port.node.name + ":" + ToString(anchor.peers[0].port.idx);
      }
    }

    method SerializeGraph(graph: ComputeGraph) returns (proto: GraphDef)
      requires graph.Valid()
      ensures proto.name == graph.name && proto.input == InputTexts(graph.inputNodes)
      ensures proto.output == OutputTexts(graph.outputNodes) && |proto.op| == |graph.nodes|
      ensures forall i :: 0 <= i < |proto.op| ==>
        proto.op[i] == OpText(View(graph.anchors), graph.nodes[i], graph.nodes[i].id)
    {
      hide EdgeTextsOf, GraphOk, Anchored, View, InputTexts, OutputTexts;
      var inputs := SerializeInputs(graph.inputNodes);
      var outputs := SerializeOutputs(graph.outputNodes);
      var ops := SerializeNodes(graph);
      proto := GraphDef(graph.name, inputs, outputs, ops);
    }

    method SerializeInputs(ns: seq<Node>) returns (inputs: seq<string>)
      ensures inputs == InputTexts(ns)
    {
      inputs := [];
      for k := 0 to |ns|
        invariant inputs == InputTexts(ns[..k])
      {
        assert Front(ns[..k + 1]) == ns[..k];
        inputs := inputs + [ns[k].name + ":0"];
      }
      assert ns[..|ns|] == ns;
    }

    method SerializeOutputs(outs: seq<(Node, int)>) returns (outputs: seq<string>)
      ensures outputs == OutputTexts(outs)
    {
      outputs := [];
      for k := 0 to |outs|
        invariant outputs == OutputTexts(outs[..k])
      {
        assert Front(outs[..k + 1]) == outs[..k];
        outputs := outputs + [outs[k].0.name + ":" + ToString(outs[k].1)];
      }
      assert outs[..|outs|] == outs;
    }

    method SerializeNodes(graph: ComputeGraph) returns (ops: seq<OpDef>)
      requires graph.Valid()
      ensures |ops| == |graph.nodes|
      ensures forall i :: 0 <= i < |ops| ==> ops[i] == OpText(View(graph.anchors), graph.nodes[i], graph.nodes[i].id)
    {
      hide EdgeTextsOf, GraphOk, Anchored, View;
      ops := [];
      for k := 0 to |graph.nodes|
        invariant |ops| == k
        invariant forall i :: 0 <= i < k ==> ops[i] == OpText(View(graph.anchors), graph.nodes[i], graph.nodes[i].id)
      {
        var n := graph.nodes[k];
        var texts := SerializeEdge(graph, n);
        ops := ops + [OpDef(n.name, n.kind, n.id, n.inputs, n.outputs, n.subgraphs, texts)];
      }
    }

    method UnserializeNode(graph: ComputeGraph, op: OpDef) returns (w: Node)
      requires graph.Valid()
      modifies this`requests, this`nodeMap, graph`nodes, graph`anchors
      ensures graph.Valid() && fresh(w) && BuiltFrom(w, op) && graph.nodes == old(graph.nodes) + [w]
      ensures View(graph.anchors) == WithNode(old(View(graph.anchors)), w)
      ensures fresh(graph.anchors.Values - old(graph.anchors.Values))
      ensures requests == old(requests) + Requests(op.input, w) && nodeMap == old(nodeMap)[op.name := w]
    {
      hide Requests, GraphOk, Anchored, View, WithNode;
      w := graph.AddNode(op.name, op.kind, op.inputs, op.outputs, op.subgraphs, op.id);
      RequestInputs(op.input, w);
      nodeMap := nodeMap[op.name := w];
    }

    method RequestInputs(texts: seq<string>, w: Node)
      modifies this`requests
      ensures requests == old(requests) + Requests(texts, w)
    {
      hide Requests, Slots, ParseNodeIndex;
      NoTexts(w);
      var slot: nat := 0;
      ghost var before := requests;
      for k := 0 to |texts|
        invariant requests == before + Requests(texts[..k], w) && slot == Slots(texts[..k])
      {
        OneMoreText(texts[..k], texts[k], w);
        assert texts[..k + 1] == texts[..k] + [texts[k]];
        var p := ParseNodeIndex(texts[k]);
        if p.Parsed? {
          Associative(before, Requests(texts[..k], w), [Req(p.name, p.index, w, slot)]);
          requests := requests + [Req(p.name, p.index, w, slot)];
        }
        if !(p.Parsed? && p.index < 0) {
          slot := slot + 1;
        }
      }
      assert texts[..|texts|] == texts;
    }

    method ReadReferences(texts: seq<string>) returns (refs: seq<(string, int)>)
      ensures refs == References(texts)
    {
      hide ParseNodeIndex;
      refs := [];
      for k := 0 to |texts|
        invariant refs == References(texts[..k])
      {
        assert Front(texts[..k + 1]) == texts[..k];
        var p := ParseNodeIndex(texts[k]);
        if p.Parsed? {
          refs := refs + [(p.name, p.index)];
        }
      }
      assert texts[..|texts|] == texts;
    }

    method UnserializeGraphWithoutEdge(proto: GraphDef) returns (graph: ComputeGraph)
      requires Idle()
      modifies this
      ensures fresh(graph) && graph.Valid() && fresh(graph.anchors.Values) && graph.name == proto.name
      ensures graph.inputNodes == [] && graph.outputNodes == [] && View(graph.anchors) == BareLinks(graph.nodes)
      ensures |graph.nodes| == |proto.op| && forall i :: 0 <= i < |proto.op| ==> BuiltFrom(graph.nodes[i], proto.op[i])
      ensures requests == AllRequests(proto.op, graph.nodes, |proto.op|) && nodeMap == NameMap(graph.nodes)
      ensures graphInputs == References(proto.input) && graphOutputs == References(proto.output)
      ensures forall i :: 0 <= i < |graph.nodes| ==> fresh(graph.nodes[i])
    {
      hide GraphOk, Anchored, References, BareLinks, AllRequests, NameMap;
      graph := new ComputeGraph(proto.name);
      graphInputs := ReadReferences(proto.input);
      graphOutputs := ReadReferences(proto.output);
      assert View(graph.anchors) == map[];
      hide View;
      ReadNodes(graph, proto.op);
    }

    ghost predicate NodesRead(graph: ComputeGraph, ops: seq<OpDef>, k: nat)
      requires k <= |ops|
      reads this, graph, graph.anchors.Values, graph.nodes
    {
      && graph.Valid() && View(graph.anchors) == BareLinks(graph.nodes)
      && |graph.nodes| == k && (forall i :: 0 <= i < k ==> BuiltFrom(graph.nodes[i], ops[i]))
      && requests == AllRequests(ops, graph.nodes, k) && nodeMap == NameMap(graph.nodes)
    }

    method ReadNodes(graph: ComputeGraph, ops: seq<OpDef>)
      requires graph.Valid() && requests == [] && nodeMap == map[] && graph.nodes == [] && View(graph.anchors) == map[]
      modifies this`requests, this`nodeMap, graph`nodes, graph`anchors
      ensures NodesRead(graph, ops, |ops|) && fresh(graph.anchors.Values - old(graph.anchors.Values))
      ensures forall i :: 0 <= i < |graph.nodes| ==> fresh(graph.nodes[i])
    {
      hide BareLinks, AllRequests, NameMap, GraphOk, Anchored, View, BuiltFrom;
      ReadNone(ops);
      var k := 0;
      while k < |ops|
        invariant k <= |ops| && NodesRead(graph, ops, k) && fresh(graph.anchors.Values - old(graph.anchors.Values))
        invariant forall i :: 0 <= i < |graph.nodes| ==> fresh(graph.nodes[i])
      {
        ReadNode(graph, ops, k);
        k := k + 1;
      }
    }

    method ReadNode(graph: ComputeGraph, ops: seq<OpDef>, k: nat)
      requires k < |ops| && NodesRead(graph, ops, k)
      modifies this`requests, this`nodeMap, graph`nodes, graph`anchors
      ensures NodesRead(graph, ops, k + 1) && fresh(graph.anchors.Values - old(graph.anchors.Values))
      ensures graph.nodes == old(graph.nodes) + [graph.nodes[k]] && fresh(graph.nodes[k])
    {
      ghost var ws := graph.nodes;
      hide Requests, GraphOk, Anchored, View, WithNode;
      var w := UnserializeNode(graph, ops[k]);
      assert Front(ws + [w]) == ws;
      SamePrefix(ops, ws, w, k);
    }

    // The first loop of HandleNodeNameRef: it stops at a request whose node or
    // anchor is missing, and only logs a refused link.
    method LinkRequests(graph: ComputeGraph, rs: seq<Req>, m: map<string, Node>) returns (ok: bool)
      requires graph.Valid() && (forall r :: r in rs ==> r.dst in graph.nodes)
      requires forall x :: x in m ==> m[x] in graph.nodes
      modifies graph.anchors.Values`peers
      ensures graph.Valid() && ok == AllResolve(old(View(graph.anchors)), m, rs)
      ensures ok ==> View(graph.anchors) == LinkAll(old(View(graph.anchors)), m, rs)
    {
      hide GraphOk, Anchored, View, Resolves, LinkAll, AllResolve, LinkReq;
      ghost var g := View(graph.anchors);
      assert rs[..0] == [];
      NoRequests(g, m);
      for k := 0 to |rs|
        invariant graph.Valid() && AllResolve(g, m, rs[..k])
        invariant View(graph.anchors) == LinkAll(g, m, rs[..k])
      {
        var r := rs[k];
        assert r in rs;
        ghost var h := View(graph.anchors);
        ok := LinkRequest(graph, r, m);
        if !ok {
          SameKeysResolve(g, h, m, r);
          OneFails(g, m, rs, r);
          return;
        }
        SameKeysResolve(g, h, m, r);
        LinkAllStep(g, m, rs[..k], r);
        assert rs[..k + 1] == rs[..k] + [r];
      }
      assert rs[..|rs|] == rs;
      ok := true;
    }

    method LinkRequest(graph: ComputeGraph, r: Req, m: map<string, Node>) returns (ok: bool)
      requires graph.Valid() && r.dst in graph.nodes
      requires forall x :: x in m ==> m[x] in graph.nodes
      modifies graph.anchors.Values`peers
      ensures graph.Valid() && ok == Resolves(old(View(graph.anchors)), m, r)
      ensures View(graph.anchors) == if ok then LinkReq(old(View(graph.anchors)), m, r) else old(View(graph.anchors))
    {
      if r.src !in m {
        return false;
      }
      ghost var g := View(graph.anchors);
      var src := m[r.src];
      var a, b := SourceOf(m, r), TargetOf(r);
      if r.idx < 0 {
        OwnPort(g, src, a);
        OwnPort(g, r.dst, b);
      }
      if !(a in graph.anchors && b in graph.anchors) {
        return false;
      }
      assert a.node in graph.nodes && b.node in graph.nodes && a.IsOut() && b.IsIn();
      LinkedGraphOk(g, graph.nodes, a, b);
      hide GraphOk;
      var linked := graph.anchors[a].LinkTo(graph.anchors[b], graph.anchors);
      ok := true;
    }

    method HandleNodeNameRef(graph: ComputeGraph) returns (ok: bool)
      requires graph.Valid() && (forall r :: r in requests ==> r.dst in graph.nodes)
      requires (forall x :: x in nodeMap ==> nodeMap[x] in graph.nodes)
      requires graph.inputNodes == [] && graph.outputNodes == []
      modifies this, graph`inputNodes, graph`outputNodes, graph`nodes, graph.nodes`id, graph.anchors.Values`peers
      ensures graph.Valid() && (ok ==> Idle())
      ensures graph.nodes == old(graph.nodes) && forall n :: n in graph.nodes ==> n.id == old(n.id)
      ensures ok == old(AllResolve(View(graph.anchors), nodeMap, requests)
                        && AllKnown(nodeMap, graphInputs) && AllKnown(nodeMap, graphOutputs))
      ensures ok ==> View(graph.anchors) == LinkAll(old(View(graph.anchors)), old(nodeMap), old(requests))
      ensures ok ==> graph.inputNodes == NodesOf(old(nodeMap), old(graphInputs))
      ensures ok ==> graph.outputNodes == OutputsOf(old(nodeMap), old(graphOutputs))
    {
      hide GraphOk, Anchored, View, LinkAll, AllResolve, OutputsOf, AllKnown;
      ok := LinkRequests(graph, requests, nodeMap);
      if !ok {
        return;
      }
      ok := TakeInputs(graph);
      if !ok {
        return;
      }
      ok := TakeOutputs(graph);
      if !ok {
        return;
      }
      requests, graphInputs, graphOutputs, nodeMap := [], [], [], map[];
    }

    method TakeInputs(graph: ComputeGraph) returns (ok: bool)
      requires graph.Valid() && (forall x :: x in nodeMap ==> nodeMap[x] in graph.nodes) && graph.inputNodes == []
      modifies graph`inputNodes, graph`nodes, graph.nodes`id
      ensures graph.Valid() && graph.nodes == old(graph.nodes) && (forall n :: n in graph.nodes ==> n.id == old(n.id))
      ensures ok == AllKnown(nodeMap, graphInputs)
      ensures ok ==> graph.inputNodes == NodesOf(nodeMap, graphInputs)
    {
      hide GraphOk, Anchored, View;
      for k := 0 to |graphInputs|
        invariant graph.Valid() && graph.nodes == old(graph.nodes) && forall n :: n in graph.nodes ==> n.id == old(n.id)
        invariant AllKnown(nodeMap, graphInputs[..k]) && graph.inputNodes == NodesOf(nodeMap, graphInputs[..k])
      {
        if graphInputs[k].0 !in nodeMap {
          return false;
        }
        graph.AddInputNode(nodeMap[graphInputs[k].0]);
        assert graphInputs[..k + 1] == graphInputs[..k] + [graphInputs[k]];
      }
      assert graphInputs[..|graphInputs|] == graphInputs;
      return true;
    }

    method TakeOutputs(graph: ComputeGraph) returns (ok: bool)
      requires graph.Valid() && (forall x :: x in nodeMap ==> nodeMap[x] in graph.nodes) && graph.outputNodes == []
      modifies graph`outputNodes, graph`nodes, graph.nodes`id
      ensures graph.Valid() && graph.nodes == old(graph.nodes) && (forall n :: n in graph.nodes ==> n.id == old(n.id))
      ensures ok == AllKnown(nodeMap, graphOutputs)
      ensures ok ==> graph.outputNodes == OutputsOf(nodeMap, graphOutputs)
    {
      hide GraphOk, Anchored, View;
      for k := 0 to |graphOutputs|
        invariant graph.Valid() && graph.nodes == old(graph.nodes) && forall n :: n in graph.nodes ==> n.id == old(n.id)
        invariant AllKnown(nodeMap, graphOutputs[..k]) && graph.outputNodes == OutputsOf(nodeMap, graphOutputs[..k])
      {
        if graphOutputs[k].0 !in nodeMap {
          return false;
        }
        graph.AddOutputNodeByIndex(nodeMap[graphOutputs[k].0], graphOutputs[k].1);
        assert Front(graphOutputs[..k + 1]) == graphOutputs[..k];
      }
      assert graphOutputs[..|graphOutputs|] == graphOutputs;
      return true;
    }

    method UnserializeGraph(proto: GraphDef) returns (ok: bool, graph: ComputeGraph)
      requires Idle()
      modifies this
      ensures fresh(graph) && graph.Valid() && graph.name == proto.name && |graph.nodes| == |proto.op|
      ensures forall i :: 0 <= i < |proto.op| ==> BuiltFrom(graph.nodes[i], proto.op[i])
      ensures ok == ReadsBack(proto, graph.nodes)
      ensures ok ==> View(graph.anchors) == LinksBack(proto, graph.nodes) && Idle()
      ensures ok ==> graph.inputNodes == NodesOf(NameMap(graph.nodes), References(proto.input))
      ensures ok ==> graph.outputNodes == OutputsOf(NameMap(graph.nodes), References(proto.output))
    {
      hide GraphOk, Anchored, View, AllResolve, AllRequests, OutputsOf, NameMap, BareLinks, References, LinkAll,
        AllKnown;
      graph := UnserializeGraphWithoutEdge(proto);
      AllRequestsTo(proto.op, graph.nodes, |proto.op|);
      NamesIn(graph.nodes);
      ok := HandleNodeNameRef(graph);
    }

    // A graph is written and the message is read: this always succeeds, and
    // the graph read is a copy of the one written.
    method WriteAndRead(graph: ComputeGraph) returns (ok: bool, copy: ComputeGraph)
      requires Idle() && graph.Valid() && SourceReady(View(graph.anchors), graph.nodes)
      requires EndsInside(graph.nodes, graph.inputNodes, graph.outputNodes)
      modifies this
      ensures ok && Idle() && fresh(copy) && copy.Valid() && copy.name == graph.name
      ensures SameGraph(View(graph.anchors), graph.nodes, graph.inputNodes, graph.outputNodes,
                        View(copy.anchors), copy.nodes, copy.inputNodes, copy.outputNodes)
      ensures SameOps(graph.nodes, copy.nodes)
    {
      hide GraphOk, Anchored, View, SourceReady, EndsInside, SameGraph, ReadsBack, LinksBack, References, NameMap,
        OutputsOf, EdgeTextsOf, InputTexts, OutputTexts, NodesOf, Distinct, Idle, SameOps, BuiltFrom, OpText;
      ghost var g := View(graph.anchors);
      var proto := SerializeGraph(graph);
      ok, copy := UnserializeGraph(proto);
      ValidDistinct(copy);
      MessageReadBack(g, graph.nodes, graph.inputNodes, graph.outputNodes, proto, copy.nodes);
    }
  }

  // Reading succeeds when every edge and every graph input and output refers
  // to a node (and anchor) that exists.
  ghost predicate ReadsBack(proto: GraphDef, ws: seq<Node>)
    requires |ws| == |proto.op|
  {
    && AllResolve(BareLinks(ws), NameMap(ws), AllRequests(proto.op, ws, |ws|))
    && AllKnown(NameMap(ws), References(proto.input)) && AllKnown(NameMap(ws), References(proto.output))
  }

  ghost function LinksBack(proto: GraphDef, ws: seq<Node>): Links
    requires |ws| == |proto.op| && ReadsBack(proto, ws)
  {
    LinkAll(BareLinks(ws), NameMap(ws), AllRequests(proto.op, ws, |ws|))
  }

  // -------------------------------------------------------------- support

  lemma ValidDistinct(graph: ComputeGraph)
    requires graph.Valid()
    ensures Distinct(graph.nodes)
  {
  }

  lemma NoTexts(w: Node)
    ensures Slots([]) == 0 && Requests([], w) == []
  {
  }

  lemma ReadNone(ops: seq<OpDef>)
    ensures BareLinks([]) == map[] && AllRequests(ops, [], 0) == [] && NameMap([]) == map[]
  {
  }

  lemma {:induction false} SamePrefix(ops: seq<OpDef>, ws: seq<Node>, w: Node, k: nat)
    requires k <= |ws| && k <= |ops|
    ensures AllRequests(ops, ws + [w], k) == AllRequests(ops, ws, k)
    decreases k
  {
    if k > 0 {
      SamePrefix(ops, ws, w, k - 1);
    }
  }

  lemma {:induction false} RequestsTo(texts: seq<string>, w: Node)
    ensures forall r :: r in Requests(texts, w) ==> r.dst == w
  {
    if texts != [] {
      RequestsTo(Front(texts), w);
    }
  }

  lemma {:induction false} AllRequestsTo(ops: seq<OpDef>, ws: seq<Node>, k: nat)
    requires k <= |ops| && k <= |ws|
    ensures forall r :: r in AllRequests(ops, ws, k) ==> r.dst in ws
    decreases k
  {
    if k > 0 {
      hide Requests;
      AllRequestsTo(ops, ws, k - 1);
      RequestsTo(ops[k - 1].input, ws[k - 1]);
      assert ws[k - 1] in ws;
    }
  }

  lemma {:induction false} NamesIn(ws: seq<Node>)
    ensures forall x :: x in NameMap(ws) ==> NameMap(ws)[x] in ws
  {
    if ws != [] {
      FrontLast(ws);
      NamesIn(Front(ws));
    }
  }

  lemma NoRequests(g: Links, m: map<string, Node>)
    ensures AllResolve(g, m, []) && LinkAll(g, m, []) == g
  {
  }

  lemma OneFails(g: Links, m: map<string, Node>, rs: seq<Req>, r: Req)
    requires r in rs && !Resolves(g, m, r)
    ensures !AllResolve(g, m, rs)
  {
  }

  lemma SameKeysResolve(g: Links, h: Links, m: map<string, Node>, r: Req)
    requires h.Keys == g.Keys
    ensures Resolves(h, m, r) == Resolves(g, m, r)
  {
  }

  lemma LinkAllStep(g: Links, m: map<string, Node>, rs: seq<Req>, r: Req)
    requires AllResolve(g, m, rs) && Resolves(g, m, r)
    ensures AllResolve(g, m, rs + [r]) && Resolves(LinkAll(g, m, rs), m, r)
    ensures LinkAll(g, m, rs + [r]) == LinkReq(LinkAll(g, m, rs), m, r)
  {
    assert Front(rs + [r]) == rs;
    forall x | x in rs + [r] ensures Resolves(g, m, x) {
      assert x in rs || x == r;
    }
  }

  lemma LinkedGraphOk(g: Links, nodes: seq<Node>, a: Port, b: Port)
    requires GraphOk(g, nodes) && a in g && b in g && a.IsOut() && b.IsIn() && a.node in nodes && b.node in nodes
    ensures GraphOk(Linked(g, a, b), nodes)
  {
    LinkedKeeps(g, a, b);
    var h := Linked(g, a, b);
    hide WellLinked;
    forall n | n in nodes ensures HasPorts(h, n) {
      assert HasPorts(g, n);
    }
    forall p: Port, q: Port | p in h && p.node in nodes && q in h[p] ensures q.node in nodes {
      if q !in g[p] {
        assert q == a || q == b;
      }
    }
  }

  // ------------------------------------------------------------ round trip

  lemma {:induction false} NameMapAt(ws: seq<Node>, i: nat)
    requires UniqueNames(ws) && Distinct(ws) && i < |ws|
    ensures ws[i].name in NameMap(ws) && NameMap(ws)[ws[i].name] == ws[i]
  {
    if i < |ws| - 1 {
      assert ws[i] in ws && Last(ws) in ws;
      FrontLast(ws);
      NameMapAt(Front(ws), i);
    }
  }

  lemma {:induction false} BareLinksBare(ws: seq<Node>)
    ensures BareCopies(BareLinks(ws), ws)
  {
    if ws != [] {
      BareLinksBare(Front(ws));
      BareStep(BareLinks(Front(ws)), Front(ws), Last(ws));
      FrontLast(ws);
    }
  }

  lemma BareStep(h: Links, ws: seq<Node>, w: Node)
    requires BareCopies(h, ws)
    ensures BareCopies(WithNode(h, w), ws + [w])
  {
    PortsOfNode(w);
    hide InPorts, OutPorts;
    var e := WithNode(h, w);
    forall x | x in e ensures e[x] == [] && x.node in ws + [w] && IsPort(x) {
      if x in InPorts(w) + OutPorts(w) {
        NewPort(w, x);
      }
    }
    forall n | n in ws + [w] ensures HasPorts(e, n) {
      if n in ws {
        assert HasPorts(h, n);
      }
    }
  }

  lemma {:induction false} AllRequestsAre(g: Links, nodes: seq<Node>, ops: seq<OpDef>, ws: seq<Node>, k: nat)
    requires IndicesFit(g) && k <= |nodes| == |ops| == |ws|
    requires forall i :: 0 <= i < |ops| ==> ops[i].input == EdgeTextsOf(g, nodes[i])
    ensures AllRequests(ops, ws, k) == AllReqs(g, nodes, ws, k)
    decreases k
  {
    hide EdgeTextsOf, Requests, EdgeReqs;
    if k > 0 {
      AllRequestsAre(g, nodes, ops, ws, k - 1);
      RequestsOfTexts(g, nodes[k - 1], ws[k - 1]);
    }
  }

  lemma ReferencesStep(texts: seq<string>, t: string, name: string, i: int)
    requires ParseNodeIndex(t) == Parsed(name, i)
    ensures References(texts + [t]) == References(texts) + [(name, i)]
  {
    assert Front(texts + [t]) == texts;
  }

  lemma InputText(name: string)
    ensures ParseNodeIndex(name + ":0") == Parsed(name, 0)
  {
    ParseOfText(name, 0);
    assert ToString(0) == "0" && NodeIndexText(name, 0) == name + ":0";
  }

  lemma OutputText(name: string, i: int)
    requires INT32_MIN <= i <= INT32_MAX
    ensures ParseNodeIndex(name + ":" + ToString(i)) == Parsed(name, i)
  {
    ParseOfText(name, i);
  }

  lemma NoReferences()
    ensures References([]) == []
  {
  }

  lemma {:induction false} InputReferences(ns: seq<Node>)
    ensures |References(InputTexts(ns))| == |ns|
    ensures forall i :: 0 <= i < |ns| ==> References(InputTexts(ns))[i] == (ns[i].name, 0)
  {
    hide References, ParseNodeIndex;
    if ns == [] {
      NoReferences();
    } else {
      InputReferences(Front(ns));
      InputText(Last(ns).name);
      ReferencesStep(InputTexts(Front(ns)), Last(ns).name + ":0", Last(ns).name, 0);
    }
  }

  // Output indices are ints.
  ghost predicate OutputsFit(outs: seq<(Node, int)>) {
    forall i :: 0 <= i < |outs| ==> INT32_MIN <= outs[i].1 <= INT32_MAX
  }

  lemma {:induction false} OutputReferences(outs: seq<(Node, int)>)
    requires OutputsFit(outs)
    ensures |References(OutputTexts(outs))| == |outs|
    ensures forall i :: 0 <= i < |outs| ==> References(OutputTexts(outs))[i] == (outs[i].0.name, outs[i].1)
  {
    hide References, ToString, ParseNodeIndex;
    if outs == [] {
      NoReferences();
    } else {
      OutputReferences(Front(outs));
      var last := Last(outs);
      assert outs[|outs| - 1] == last;
      OutputText(last.0.name, last.1);
      ReferencesStep(OutputTexts(Front(outs)), last.0.name + ":" + ToString(last.1), last.0.name, last.1);
    }
  }

  // Listing outputs one by one: a name and index already listed are left out.
  function Listed(outs: seq<(Node, int)>): seq<(Node, int)> {
    if outs == [] then [] else WithOutput(Listed(Front(outs)), Last(outs).0, Last(outs).1)
  }

  ghost predicate OutputsOnce(outs: seq<(Node, int)>) {
    forall i, j :: 0 <= i < j < |outs| ==> outs[i].0.name != outs[j].0.name || outs[i].1 != outs[j].1
  }

  lemma ListsMore(outs: seq<(Node, int)>, o: (Node, int), name: string, i: int)
    ensures Lists(outs + [o], name, i) <==> Lists(outs, name, i) || (o.0.name == name && o.1 == i)
  {
    if Lists(outs, name, i) {
      var x :| x in outs && x.0.name == name && x.1 == i;
      assert x in outs + [o];
    }
    assert o in outs + [o];
  }

  lemma {:induction false} ListedLists(outs: seq<(Node, int)>, name: string, i: int)
    ensures Lists(Listed(outs), name, i) == Lists(outs, name, i)
    decreases |outs|
  {
    hide Lists;
    if outs != [] {
      var front, last := Front(outs), Last(outs);
      ListedLists(front, name, i);
      ListedLists(front, last.0.name, last.1);
      assert outs == front + [last];
      ListsMore(front, last, name, i);
      ListsMore(Listed(front), last, name, i);
      assert last == (last.0, last.1);
    }
  }

  lemma OnceMore(outs: seq<(Node, int)>, o: (Node, int))
    ensures OutputsOnce(outs + [o]) <==> OutputsOnce(outs) && !Lists(outs, o.0.name, o.1)
  {
    var r := outs + [o];
    if OutputsOnce(r) {
      forall i, j | 0 <= i < j < |outs| ensures outs[i].0.name != outs[j].0.name || outs[i].1 != outs[j].1 {
        assert r[i] == outs[i] && r[j] == outs[j];
      }
      forall x | x in outs ensures x.0.name != o.0.name || x.1 != o.1 {
        var i :| 0 <= i < |outs| && outs[i] == x;
        assert r[i] == x && r[|outs|] == o;
      }
    } else {
      var i, j :| 0 <= i < j < |r| && r[i].0.name == r[j].0.name && r[i].1 == r[j].1;
      assert r[i] == outs[i] && outs[i] in outs;
      if j < |outs| {
        assert outs[j] == r[j];
      }
    }
  }

  // The graph outputs are listed in full exactly when none is repeated.
  lemma {:induction false} ListedWhole(outs: seq<(Node, int)>)
    ensures |Listed(outs)| <= |outs|
    ensures Listed(outs) == outs <==> OutputsOnce(outs)
  {
    hide Lists;
    if outs != [] {
      hide OutputsOnce;
      var front, last := Front(outs), Last(outs);
      ListedWhole(front);
      ListedLists(front, last.0.name, last.1);
      assert outs == front + [last] && last == (last.0, last.1);
      OnceMore(front, last);
      if !Lists(front, last.0.name, last.1) {
        assert Listed(outs) == Listed(front) + [last];
        assert Front(Listed(front) + [last]) == Listed(front);
      }
    }
  }

  ghost predicate OutputsNamed(m: map<string, Node>, outs: seq<(Node, int)>) {
    forall o :: o in outs ==> o.0.name in m && m[o.0.name].name == o.0.name
  }

  function OutputCopies(m: map<string, Node>, outs: seq<(Node, int)>): (r: seq<(Node, int)>)
    requires OutputsNamed(m, outs)
    ensures |r| == |outs|
    ensures forall i :: 0 <= i < |outs| ==> outs[i] in outs && r[i] == (m[outs[i].0.name], outs[i].1)
  {
    seq(|outs|, i requires 0 <= i < |outs| => assert outs[i] in outs; (m[outs[i].0.name], outs[i].1))
  }

  // Outputs read back by name are the copies of the outputs, those listed
  // again left out.
  lemma {:induction false} OutputsListed(m: map<string, Node>, outs: seq<(Node, int)>, refs: seq<(string, int)>)
    requires OutputsNamed(m, outs) && AllKnown(m, refs) && |refs| == |outs|
    requires forall i :: 0 <= i < |outs| ==> refs[i] == (outs[i].0.name, outs[i].1)
    ensures OutputsNamed(m, Listed(outs)) && OutputsOf(m, refs) == OutputCopies(m, Listed(outs))
    decreases |outs|
  {
    hide OutputCopies, OutputsNamed, WithOutput;
    if outs == [] {
      NoOutputs(m);
    } else {
      var front, last := Front(outs), Last(outs);
      NamedFront(m, outs);
      OutputsListed(m, front, Front(refs));
      OneMoreOutput(m, Listed(front), last);
      assert refs[|refs| - 1] == Last(refs) == (last.0.name, last.1);
    }
  }

  lemma NoOutputs(m: map<string, Node>)
    ensures OutputsNamed(m, []) && OutputCopies(m, []) == []
  {
  }

  lemma NamedFront(m: map<string, Node>, outs: seq<(Node, int)>)
    requires OutputsNamed(m, outs) && outs != []
    ensures OutputsNamed(m, Front(outs)) && Last(outs).0.name in m && m[Last(outs).0.name].name == Last(outs).0.name
  {
    FrontLast(outs);
    assert Last(outs) in outs;
  }

  lemma ListsCopies(m: map<string, Node>, outs: seq<(Node, int)>, name: string, i: int)
    requires OutputsNamed(m, outs)
    ensures Lists(OutputCopies(m, outs), name, i) == Lists(outs, name, i)
  {
    var copies := OutputCopies(m, outs);
    if Lists(outs, name, i) {
      var o :| o in outs && o.0.name == name && o.1 == i;
      var k :| 0 <= k < |outs| && outs[k] == o;
      assert copies[k] in copies;
    }
    if Lists(copies, name, i) {
      var c :| c in copies && c.0.name == name && c.1 == i;
      var k :| 0 <= k < |copies| && copies[k] == c;
      assert outs[k] in outs;
    }
  }

  lemma OneMoreOutput(m: map<string, Node>, outs: seq<(Node, int)>, last: (Node, int))
    requires OutputsNamed(m, outs) && last.0.name in m && m[last.0.name].name == last.0.name
    ensures OutputsNamed(m, WithOutput(outs, last.0, last.1))
    ensures WithOutput(OutputCopies(m, outs), m[last.0.name], last.1) ==
      OutputCopies(m, WithOutput(outs, last.0, last.1))
  {
    ListsCopies(m, outs, last.0.name, last.1);
    hide Lists;
    if !Lists(outs, last.0.name, last.1) {
      var r := outs + [(last.0, last.1)];
      assert OutputsNamed(m, r);
      assert OutputCopies(m, r) == OutputCopies(m, outs) + [(m[last.0.name], last.1)];
    }
  }

  // What SerializeGraph writes for a graph with the given state.
  ghost predicate Written(g: Links, nodes: seq<Node>, ins: seq<Node>, outs: seq<(Node, int)>, proto: GraphDef) {
    && |proto.op| == |nodes| && proto.input == InputTexts(ins) && proto.output == OutputTexts(outs)
    && forall i {:trigger proto.op[i]} :: 0 <= i < |nodes| ==> proto.op[i] == OpText(g, nodes[i], proto.op[i].id)
  }

  // New nodes with the names and sizes that were written.
  ghost predicate Renewed(nodes: seq<Node>, ws: seq<Node>) {
    && |ws| == |nodes| && Distinct(ws)
    && forall i {:trigger ws[i]} :: 0 <= i < |ws| ==>
         ws[i].name == nodes[i].name && ws[i].inputs == nodes[i].inputs && ws[i].outputs == nodes[i].outputs
  }

  lemma RenewedCopies(nodes: seq<Node>, ws: seq<Node>)
    requires UniqueNames(nodes) && Distinct(nodes) && Renewed(nodes, ws)
    ensures Copies(nodes, ws, NameMap(ws))
  {
    forall a, b | a in ws && b in ws && a.name == b.name ensures a == b {
      var i :| 0 <= i < |ws| && ws[i] == a;
      var j :| 0 <= j < |ws| && ws[j] == b;
      assert nodes[i] in nodes && nodes[j] in nodes && nodes[i].name == nodes[j].name;
    }
    forall i | 0 <= i < |ws| ensures nodes[i].name in NameMap(ws) && NameMap(ws)[nodes[i].name] == ws[i] {
      NameMapAt(ws, i);
    }
  }

  lemma RefersTo(nodes: seq<Node>, ws: seq<Node>, m: map<string, Node>, n: Node)
    requires Copies(nodes, ws, m) && n in nodes
    ensures n.name in m && m[n.name].name == n.name
  {
    var i :| 0 <= i < |nodes| && nodes[i] == n;
    assert ws[i].name == n.name;
  }

  // Reading what was written succeeds, and the copy of every node has the same
  // data sources and the same control predecessors.
  lemma EdgesReadBack(g: Links, nodes: seq<Node>, ins: seq<Node>, outs: seq<(Node, int)>, proto: GraphDef,
                      ws: seq<Node>)
    requires SourceReady(g, nodes) && Written(g, nodes, ins, outs, proto) && Renewed(nodes, ws)
    ensures AllResolve(BareLinks(ws), NameMap(ws), AllRequests(proto.op, ws, |ws|))
    ensures var h := LinkAll(BareLinks(ws), NameMap(ws), AllRequests(proto.op, ws, |ws|));
      WellLinked(h) && forall n :: n in nodes ==> SameInputs(g, h, NameMap(ws), n)
  {
    RenewedCopies(nodes, ws);
    BareLinksBare(ws);
    forall i | 0 <= i < |nodes| ensures proto.op[i].input == EdgeTextsOf(g, nodes[i]) {
      assert proto.op[i] == OpText(g, nodes[i], proto.op[i].id);
    }
    AllRequestsAre(g, nodes, proto.op, ws, |nodes|);
    hide GraphOk, EdgeTextsOf, AllRequests, AllReqs, NameMap, BareLinks, Copies, Bare, SameInputs, AllResolve,
      WellLinked, UniqueNames, Written, Renewed;
    RoundTrip(g, nodes, ws, NameMap(ws), BareLinks(ws));
  }

  // The graph with nodes ws, links h, inputs and outputs insBack and outsBack
  // is a copy of the one with nodes, g, ins and outs: nodes of the same names
  // and sizes, the same sources at every in-anchor, the same graph inputs, and
  // the same graph outputs but for repeated ones.
  ghost predicate SameGraph(g: Links, nodes: seq<Node>, ins: seq<Node>, outs: seq<(Node, int)>,
                            h: Links, ws: seq<Node>, insBack: seq<Node>, outsBack: seq<(Node, int)>) {
    && Renewed(nodes, ws) && WellLinked(h)
    && var m := NameMap(ws);
    && (forall n :: n in nodes ==> SameInputs(g, h, m, n))
    && InputCopies(m, ins, insBack)
    && OutputsNamed(m, Listed(outs)) && outsBack == OutputCopies(m, Listed(outs))
  }

  ghost predicate EndsInside(nodes: seq<Node>, ins: seq<Node>, outs: seq<(Node, int)>) {
    && (forall n :: n in ins ==> n in nodes) && (forall o :: o in outs ==> o.0 in nodes) && OutputsFit(outs)
  }

  ghost predicate InputCopies(m: map<string, Node>, ins: seq<Node>, insBack: seq<Node>) {
    |insBack| == |ins| && forall i :: 0 <= i < |ins| ==> ins[i].name in m && insBack[i] == m[ins[i].name]
  }

  lemma InputsBack(nodes: seq<Node>, ws: seq<Node>, ins: seq<Node>)
    requires Copies(nodes, ws, NameMap(ws)) && forall n :: n in ins ==> n in nodes
    ensures AllKnown(NameMap(ws), References(InputTexts(ins)))
    ensures InputCopies(NameMap(ws), ins, NodesOf(NameMap(ws), References(InputTexts(ins))))
  {
    var m := NameMap(ws);
    hide Copies, NameMap, References, InputTexts;
    InputReferences(ins);
    forall i | 0 <= i < |ins| ensures ins[i].name in m {
      assert ins[i] in ins;
      RefersTo(nodes, ws, m, ins[i]);
    }
  }

  lemma OutputsBack(nodes: seq<Node>, ws: seq<Node>, outs: seq<(Node, int)>)
    requires Copies(nodes, ws, NameMap(ws)) && OutputsFit(outs) && forall o :: o in outs ==> o.0 in nodes
    ensures AllKnown(NameMap(ws), References(OutputTexts(outs))) && OutputsNamed(NameMap(ws), Listed(outs))
    ensures OutputsOf(NameMap(ws), References(OutputTexts(outs))) == OutputCopies(NameMap(ws), Listed(outs))
  {
    var m := NameMap(ws);
    hide Copies, NameMap, References, OutputTexts, OutputsOf, OutputCopies, Listed;
    OutputReferences(outs);
    forall o | o in outs ensures o.0.name in m && m[o.0.name].name == o.0.name {
      RefersTo(nodes, ws, m, o.0);
    }
    assert forall i :: 0 <= i < |outs| ==> outs[i] in outs;
    OutputsListed(m, outs, References(OutputTexts(outs)));
  }

  lemma GraphReadBack(g: Links, nodes: seq<Node>, ins: seq<Node>, outs: seq<(Node, int)>, proto: GraphDef,
                      ws: seq<Node>)
    requires SourceReady(g, nodes) && Written(g, nodes, ins, outs, proto) && Renewed(nodes, ws)
    requires EndsInside(nodes, ins, outs)
    ensures ReadsBack(proto, ws)
    ensures var m := NameMap(ws);
      SameGraph(g, nodes, ins, outs, LinksBack(proto, ws), ws, NodesOf(m, References(proto.input)),
                OutputsOf(m, References(proto.output)))
  {
    EdgesReadBack(g, nodes, ins, outs, proto, ws);
    RenewedCopies(nodes, ws);
    hide GraphOk, UniqueNames, IndicesFit, Renewed, Copies, SameInputs, AllRequests, BareLinks, NameMap, LinkAll,
      OutputsOf, OutputCopies, Listed, OutputsNamed, AllResolve, InputCopies, References, OpText, AllKnown, NodesOf,
        WellLinked;
    InputsBack(nodes, ws, ins);
    OutputsBack(nodes, ws, outs);
  }

  // Kinds, subgraph names and ids are the same.
  ghost predicate SameOps(nodes: seq<Node>, ws: seq<Node>)
    reads nodes, ws
  {
    |ws| == |nodes| && forall i :: 0 <= i < |ws| ==>
      ws[i].kind == nodes[i].kind && ws[i].subgraphs == nodes[i].subgraphs && ws[i].id == nodes[i].id
  }

  // The same for the message that SerializeGraph returns and the graph that
  // UnserializeGraph makes of it.
  lemma MessageReadBack(g: Links, nodes: seq<Node>, ins: seq<Node>, outs: seq<(Node, int)>, proto: GraphDef,
                        ws: seq<Node>)
    requires SourceReady(g, nodes) && EndsInside(nodes, ins, outs) && Distinct(ws)
    requires |proto.op| == |nodes| == |ws| && proto.input == InputTexts(ins) && proto.output == OutputTexts(outs)
    requires forall i :: 0 <= i < |proto.op| ==> proto.op[i] == OpText(g, nodes[i], nodes[i].id)
    requires forall i :: 0 <= i < |proto.op| ==> BuiltFrom(ws[i], proto.op[i])
    ensures ReadsBack(proto, ws) && SameOps(nodes, ws)
    ensures var m := NameMap(ws);
      SameGraph(g, nodes, ins, outs, LinksBack(proto, ws), ws, NodesOf(m, References(proto.input)),
                OutputsOf(m, References(proto.output)))
  {
    hide SourceReady, EndsInside, ReadsBack, SameGraph, LinksBack, NameMap, References, OutputsOf, NodesOf, InputTexts,
      OutputTexts, EdgeTextsOf, Distinct;
    assert forall i :: 0 <= i < |ws| ==>
      BuiltFrom(ws[i], proto.op[i]) && proto.op[i] == OpText(g, nodes[i], nodes[i].id);
    assert Renewed(nodes, ws);
    assert Written(g, nodes, ins, outs, proto);
    GraphReadBack(g, nodes, ins, outs, proto, ws);
  }
}
