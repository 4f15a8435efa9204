// What serialising a graph writes for its edges, what reading it back asks
// for, and what linking as asked rebuilds.
module EdgeTexts {
  import opened Links
  import opened Degrees
  import opened NodeIndex

  // The parts of the stored node and graph messages that the structure needs.
  datatype OpDef = OpDef(name: string, kind: string, id: int, inputs: nat, outputs: nat, subgraphs: seq<string>,
                         input: seq<string>)

  datatype GraphDef = GraphDef(name: string, input: seq<string>, output: seq<string>, op: seq<OpDef>)

  // A stored edge that is still to be linked.
  datatype Req = Req(src: string, idx: int, dst: Node, slot: nat)

  // ---------------------------------------------------------------- writing

  predicate HasSource(g: Links, p: Port) {
    At(g, p) != [] && g[p][0].OutData?
  }

  // One text for each of the first k data inputs.
  function DataTexts(g: Links, n: Node, k: nat): (r: seq<string>)
    ensures |r| == k
  {
    if k == 0 then [] else
    var p := InData(n, k - 1);
    DataTexts(g, n, k - 1) + [if HasSource(g, p) then g[p][0].node.name + ":" + ToString(g[p][0].idx) else ""]
  }

  // One text for each control predecessor.
  function CtrlTexts(ps: seq<Port>): (r: seq<string>)
    ensures |r| == |ps|
  {
    if ps == [] then [] else CtrlTexts(Front(ps)) + [Last(ps).node.name + ":-1"]
  }

  function EdgeTextsOf(g: Links, n: Node): seq<string> {
    DataTexts(g, n, n.inputs) + CtrlTexts(OutCtrlOf(At(g, InCtrl(n))))
  }

  // ---------------------------------------------------------------- reading

  // The data slots that texts have used up: every text but the control ones.
  function Slots(texts: seq<string>): nat {
    if texts == [] then 0 else
    var p := ParseNodeIndex(Last(texts));
    Slots(Front(texts)) + if p.Parsed? && p.index < 0 then 0 else 1
  }

  function Requests(texts: seq<string>, w: Node): seq<Req> {
    if texts == [] then [] else
    var p := ParseNodeIndex(Last(texts));
    Requests(Front(texts), w) + if p.Parsed? then [Req(p.name, p.index, w, Slots(Front(texts)))] else []
  }

  function DataReqs(g: Links, n: Node, w: Node, k: nat): seq<Req> {
    if k == 0 then [] else
    var p := InData(n, k - 1);
    DataReqs(g, n, w, k - 1) + if HasSource(g, p) then [Req(g[p][0].node.name, g[p][0].idx, w, k - 1)] else []
  }

  function CtrlReqs(ps: seq<Port>, w: Node, slot: nat): seq<Req> {
    if ps == [] then [] else CtrlReqs(Front(ps), w, slot) + [Req(Last(ps).node.name, -1, w, slot)]
  }

  function EdgeReqs(g: Links, n: Node, w: Node): seq<Req> {
    DataReqs(g, n, w, n.inputs) + CtrlReqs(OutCtrlOf(At(g, InCtrl(n))), w, n.inputs)
  }

  // Anchor indices are ints.
  ghost predicate IndicesFit(g: Links) {
    forall p, q {:trigger q in g[p]} :: p in g && q in g[p] && q.OutData? ==> q.idx <= INT32_MAX
  }

  lemma OneMoreText(texts: seq<string>, t: string, w: Node)
    ensures var p := ParseNodeIndex(t);
      && Slots(texts + [t]) == Slots(texts) + (if p.Parsed? && p.index < 0 then 0 else 1)
      && Requests(texts + [t], w) == Requests(texts, w) +
           if p.Parsed? then [Req(p.name, p.index, w, Slots(texts))] else []
  {
    assert Front(texts + [t]) == texts;
  }

  lemma {:induction false} DataRequests(g: Links, n: Node, w: Node, k: nat)
    requires IndicesFit(g)
    ensures Slots(DataTexts(g, n, k)) == k && Requests(DataTexts(g, n, k), w) == DataReqs(g, n, w, k)
    decreases k
  {
    if k > 0 {
      DataRequests(g, n, w, k - 1);
      var p, t := InData(n, k - 1), Last(DataTexts(g, n, k));
      if HasSource(g, p) {
        assert g[p][0] in g[p];
        ParseOfText(g[p][0].node.name, g[p][0].idx);
      } else {
        assert ParseNodeIndex("") == NoIndex;
      }
      hide Slots, Requests, ParseNodeIndex;
      OneMoreText(DataTexts(g, n, k - 1), t, w);
    }
  }

  lemma ControlText(name: string)
    ensures ParseNodeIndex(name + ":-1") == Parsed(name, -1)
  {
    ParseOfText(name, -1);
    assert ToDigits(1) == "1";
    assert NodeIndexText(name, -1) == name + ":-1";
  }

  lemma {:induction false} CtrlRequests(texts: seq<string>, ps: seq<Port>, w: Node)
    ensures Slots(texts + CtrlTexts(ps)) == Slots(texts)
    ensures Requests(texts + CtrlTexts(ps), w) == Requests(texts, w) + CtrlReqs(ps, w, Slots(texts))
    decreases |ps|
  {
    hide Slots, Requests, ParseNodeIndex;
    if ps == [] {
      assert texts + CtrlTexts(ps) == texts;
    } else {
      CtrlRequests(texts, Front(ps), w);
      var t := Last(ps).node.name + ":-1";
      ControlText(Last(ps).node.name);
      Associative(texts, CtrlTexts(Front(ps)), [t]);
      OneMoreText(texts + CtrlTexts(Front(ps)), t, w);
      Associative(Requests(texts, w), CtrlReqs(Front(ps), w, Slots(texts)),
        [Req(Last(ps).node.name, -1, w, Slots(texts))]);
    }
  }

  // Reading back the texts of a node asks for exactly its edges: the data
  // source of each connected slot, and the control predecessors in order.
  lemma RequestsOfTexts(g: Links, n: Node, w: Node)
    requires IndicesFit(g)
    ensures Requests(EdgeTextsOf(g, n), w) == EdgeReqs(g, n, w)
  {
    DataRequests(g, n, w, n.inputs);
    CtrlRequests(DataTexts(g, n, n.inputs), OutCtrlOf(At(g, InCtrl(n))), w);
  }

  // ---------------------------------------------------------------- linking

  function TargetOf(r: Req): Port {
    if r.idx >= 0 then InData(r.dst, r.slot) else InCtrl(r.dst)
  }

  function SourceOf(m: map<string, Node>, r: Req): Port
    requires r.src in m
  {
    if r.idx >= 0 then OutData(m[r.src], r.idx) else OutCtrl(m[r.src])
  }

  predicate Resolves(g: Links, m: map<string, Node>, r: Req) {
    r.src in m && SourceOf(m, r) in g && TargetOf(r) in g
  }

  ghost predicate AllResolve(g: Links, m: map<string, Node>, rs: seq<Req>) {
    forall r :: r in rs ==> Resolves(g, m, r)
  }

  function LinkReq(g: Links, m: map<string, Node>, r: Req): (h: Links)
    requires Resolves(g, m, r)
    ensures h.Keys == g.Keys
  {
    if CanLink(g, SourceOf(m, r), TargetOf(r)) then Linked(g, SourceOf(m, r), TargetOf(r)) else g
  }

  ghost function LinkAll(g: Links, m: map<string, Node>, rs: seq<Req>): (h: Links)
    requires AllResolve(g, m, rs)
    ensures h.Keys == g.Keys
  {
    if rs == [] then g else
    assert Last(rs) in rs && Resolves(g, m, Last(rs));
    LinkReq(LinkAll(g, m, Front(rs)), m, Last(rs))
  }

  // The sources asked for at x, in order.
  ghost function SourcesTo(m: map<string, Node>, rs: seq<Req>, x: Port): seq<Port> {
    if rs == [] then []
    else
      SourcesTo(m, Front(rs), x)
      + if TargetOf(Last(rs)) == x && Last(rs).src in m then [SourceOf(m, Last(rs))] else []
  }

  // From unlinked anchors, and with at most one source asked for per data
  // input, linking gives every in-anchor exactly what was asked for.
  lemma {:induction false} LinkAllIns(g: Links, m: map<string, Node>, rs: seq<Req>)
    requires WellLinked(g) && AllResolve(g, m, rs)
    requires forall x {:trigger g[x]} :: x in g && x.IsIn() ==> g[x] == []
    requires forall x {:trigger SourcesTo(m, rs, x)} :: x in g && x.InData? ==> |SourcesTo(m, rs, x)| <= 1
    ensures WellLinked(LinkAll(g, m, rs))
    ensures forall x {:trigger LinkAll(g, m, rs)[x]} :: x in g && x.IsIn() ==>
      LinkAll(g, m, rs)[x] == SourcesTo(m, rs, x)
    decreases |rs|
  {
    if rs != [] {
      forall x | x in g && x.InData? ensures |SourcesTo(m, Front(rs), x)| <= 1 {
        assert |SourcesTo(m, rs, x)| <= 1;
      }
      LinkAllIns(g, m, Front(rs));
      var r := Last(rs);
      assert r in rs && Resolves(g, m, r);
      var h, a, b := LinkAll(g, m, Front(rs)), SourceOf(m, r), TargetOf(r);
      if b.InData? {
        assert |SourcesTo(m, rs, b)| <= 1;
      }
      assert CanLink(h, a, b);
      LinkedKeeps(h, a, b);
    }
  }

  lemma {:induction false} SourcesConcat(m: map<string, Node>, a: seq<Req>, b: seq<Req>, x: Port)
    ensures SourcesTo(m, a + b, x) == SourcesTo(m, a, x) + SourcesTo(m, b, x)
    decreases |b|
  {
    if b == [] {
      assert a + b == a;
    } else {
      assert Front(a + b) == a + Front(b);
      SourcesConcat(m, a, Front(b), x);
    }
  }

  lemma {:induction false} NoSources(m: map<string, Node>, rs: seq<Req>, x: Port)
    requires forall r :: r in rs ==> TargetOf(r) != x
    ensures SourcesTo(m, rs, x) == []
    decreases |rs|
  {
    if rs != [] {
      assert Last(rs) in rs;
      NoSources(m, Front(rs), x);
    }
  }

  // ------------------------------------------------------------ the image

  function Image(m: map<string, Node>, p: Port): Port {
    if p.node.name !in m then p else
    match p
    case InData(n, i) => InData(m[n.name], i)
    case OutData(n, i) => OutData(m[n.name], i)
    case InCtrl(n) => InCtrl(m[n.name])
    case OutCtrl(n) => OutCtrl(m[n.name])
  }

  function Images(m: map<string, Node>, ps: seq<Port>): (r: seq<Port>)
    ensures |r| == |ps|
  {
    if ps == [] then [] else Images(m, Front(ps)) + [Image(m, Last(ps))]
  }

  lemma {:induction false} DataReqsTo(g: Links, m: map<string, Node>, n: Node, w: Node, k: nat, j: nat)
    requires forall i, q :: InData(n, i) in g && q in g[InData(n, i)] ==> q.node.name in m
    ensures SourcesTo(m, DataReqs(g, n, w, k), InData(w, j)) ==
      if j < k && HasSource(g, InData(n, j)) then [Image(m, g[InData(n, j)][0])] else []
    decreases k
  {
    hide SourcesTo, DataReqs, Image;
    if k == 0 {
      NoDataReqs(g, m, n, w, InData(w, j));
    } else {
      DataReqsTo(g, m, n, w, k - 1, j);
      DataReqsStep(g, m, n, w, k - 1, InData(w, j));
    }
  }

  lemma NoDataReqs(g: Links, m: map<string, Node>, n: Node, w: Node, x: Port)
    ensures SourcesTo(m, DataReqs(g, n, w, 0), x) == []
  {
  }

  lemma DataReqsStep(g: Links, m: map<string, Node>, n: Node, w: Node, k: nat, x: Port)
    requires forall i, q :: InData(n, i) in g && q in g[InData(n, i)] ==> q.node.name in m
    ensures SourcesTo(m, DataReqs(g, n, w, k + 1), x) == SourcesTo(m, DataReqs(g, n, w, k), x) +
      if x == InData(w, k) && HasSource(g, InData(n, k)) then [Image(m, g[InData(n, k)][0])] else []
  {
    hide SourcesTo;
    var p, before := InData(n, k), DataReqs(g, n, w, k);
    if HasSource(g, p) {
      assert g[p][0] in g[p];
      var r := Req(g[p][0].node.name, g[p][0].idx, w, k);
      assert DataReqs(g, n, w, k + 1) == before + [r];
      OneMoreRequest(m, before, r, x);
    } else {
      assert DataReqs(g, n, w, k + 1) == before;
    }
  }

  lemma OneMoreRequest(m: map<string, Node>, rs: seq<Req>, r: Req, x: Port)
    ensures SourcesTo(m, rs + [r], x) ==
      SourcesTo(m, rs, x) + if TargetOf(r) == x && r.src in m then [SourceOf(m, r)] else []
  {
    assert Front(rs + [r]) == rs;
  }

  lemma {:induction false} CtrlReqsTo(m: map<string, Node>, ps: seq<Port>, w: Node, slot: nat)
    requires forall p :: p in ps ==> p.OutCtrl? && p.node.name in m
    ensures SourcesTo(m, CtrlReqs(ps, w, slot), InCtrl(w)) == Images(m, ps)
    decreases |ps|
  {
    if ps != [] {
      FrontLast(ps);
      CtrlReqsTo(m, Front(ps), w, slot);
      assert Front(CtrlReqs(ps, w, slot)) == CtrlReqs(Front(ps), w, slot);
    }
  }

  lemma {:induction false} DataReqsShape(g: Links, n: Node, w: Node, k: nat)
    ensures forall r :: r in DataReqs(g, n, w, k) ==> r.idx >= 0 && r.dst == w
    decreases k
  {
    if k > 0 {
      DataReqsShape(g, n, w, k - 1);
    }
  }

  lemma {:induction false} CtrlReqsShape(ps: seq<Port>, w: Node, slot: nat)
    ensures forall r :: r in CtrlReqs(ps, w, slot) ==> r.idx < 0 && r.dst == w
    decreases |ps|
  {
    if ps != [] {
      CtrlReqsShape(Front(ps), w, slot);
    }
  }

  // What the requests of one node ask for at the copy of that node.
  lemma EdgeReqsTo(g: Links, m: map<string, Node>, n: Node, w: Node, j: nat)
    requires forall x, q :: x in g && x.node == n && q in g[x] ==> q.node.name in m
    ensures j < n.inputs ==>
      SourcesTo(m, EdgeReqs(g, n, w), InData(w, j)) ==
        if HasSource(g, InData(n, j)) then [Image(m, g[InData(n, j)][0])] else []
    ensures SourcesTo(m, EdgeReqs(g, n, w), InCtrl(w)) == Images(m, OutCtrlOf(At(g, InCtrl(n))))
  {
    var ps := OutCtrlOf(At(g, InCtrl(n)));
    var a, b := DataReqs(g, n, w, n.inputs), CtrlReqs(ps, w, n.inputs);
    ControlSources(At(g, InCtrl(n)));
    DataReqsShape(g, n, w, n.inputs);
    CtrlReqsShape(ps, w, n.inputs);
    SourcesConcat(m, a, b, InCtrl(w));
    NoSources(m, a, InCtrl(w));
    CtrlReqsTo(m, ps, w, n.inputs);
    SourcesConcat(m, a, b, InData(w, j));
    NoSources(m, b, InData(w, j));
    DataReqsTo(g, m, n, w, n.inputs, j);
  }

  lemma {:induction false} ControlSources(s: seq<Port>)
    ensures forall q :: q in OutCtrlOf(s) ==> q in s && q.OutCtrl?
  {
    if s != [] {
      FrontLast(s);
      ControlSources(Front(s));
    }
  }

  // --------------------------------------------------------- whole graphs

  // The requests of the first k nodes, whose copies are ws.
  function AllReqs(g: Links, nodes: seq<Node>, ws: seq<Node>, k: nat): seq<Req>
    requires k <= |nodes| && k <= |ws|
  {
    if k == 0 then [] else AllReqs(g, nodes, ws, k - 1) + EdgeReqs(g, nodes[k - 1], ws[k - 1])
  }

  lemma EdgeReqsShape(g: Links, n: Node, w: Node)
    ensures forall r :: r in EdgeReqs(g, n, w) ==> r.dst == w
  {
    DataReqsShape(g, n, w, n.inputs);
    CtrlReqsShape(OutCtrlOf(At(g, InCtrl(n))), w, n.inputs);
  }

  lemma {:induction false} AllReqsTo(g: Links, m: map<string, Node>, nodes: seq<Node>, ws: seq<Node>, k: nat, i: nat,
                                     x: Port)
    requires k <= |nodes| == |ws| && Distinct(ws) && i < |ws| && x.node == ws[i]
    ensures SourcesTo(m, AllReqs(g, nodes, ws, k), x) ==
      if i < k then SourcesTo(m, EdgeReqs(g, nodes[i], ws[i]), x) else []
    decreases k
  {
    hide SourcesTo, EdgeReqs;
    if k == 0 {
      NoSources(m, [], x);
    } else {
      AllReqsTo(g, m, nodes, ws, k - 1, i, x);
      assert k - 1 != i ==> ws[k - 1] != ws[i];
      var before, one := AllReqs(g, nodes, ws, k - 1), EdgeReqs(g, nodes[k - 1], ws[k - 1]);
      assert AllReqs(g, nodes, ws, k) == before + one;
      OneMoreNode(g, m, before, nodes[k - 1], ws[k - 1], x);
    }
  }

  lemma OneMoreNode(g: Links, m: map<string, Node>, before: seq<Req>, n: Node, w: Node, x: Port)
    ensures SourcesTo(m, before + EdgeReqs(g, n, w), x) == SourcesTo(m, before, x) + SourcesTo(m, EdgeReqs(g, n, w), x)
    ensures x.node != w ==> SourcesTo(m, EdgeReqs(g, n, w), x) == []
  {
    hide SourcesTo, EdgeReqs;
    SourcesConcat(m, before, EdgeReqs(g, n, w), x);
    if x.node != w {
      EdgeReqsShape(g, n, w);
      NoSources(m, EdgeReqs(g, n, w), x);
    }
  }

  // ws are fresh nodes with the shapes of nodes, and m finds them by name.
  ghost predicate Copies(nodes: seq<Node>, ws: seq<Node>, m: map<string, Node>) {
    && |ws| == |nodes| && Distinct(ws)
    && (forall i {:trigger ws[i]} :: 0 <= i < |ws| ==>
          && ws[i].name == nodes[i].name && ws[i].inputs == nodes[i].inputs && ws[i].outputs == nodes[i].outputs
          && nodes[i].name in m && m[nodes[i].name] == ws[i])
  }

  // The anchors of the copies, not yet linked.
  ghost predicate BareCopies(h: Links, ws: seq<Node>) {
    && Bare(h)
    && (forall w :: w in ws ==> HasPorts(h, w))
    && (forall x {:trigger x in h} :: x in h ==> x.node in ws && IsPort(x))
  }

  // The source that is written for a data input, as seen by the copies: its
  // first peer, if that is a data output.
  function Sourced(g: Links, m: map<string, Node>, p: Port): seq<Port> {
    if HasSource(g, p) then [Image(m, g[p][0])] else []
  }

  // Node by node the same edges: the same source at every data input,
  // unconnected ones included, and the same control predecessors in order.
  ghost predicate SameInputs(g: Links, h: Links, m: map<string, Node>, n: Node) {
    && (forall k: nat {:trigger InData(n, k)} :: k < n.inputs ==>
          Image(m, InData(n, k)) in h && h[Image(m, InData(n, k))] == Sourced(g, m, InData(n, k)))
    && Image(m, InCtrl(n)) in h && h[Image(m, InCtrl(n))] == Images(m, OutCtrlOf(At(g, InCtrl(n))))
  }

  ghost predicate SourceReady(g: Links, nodes: seq<Node>) {
    GraphOk(g, nodes) && UniqueNames(nodes) && IndicesFit(g)
  }

  lemma PeersNamed(g: Links, nodes: seq<Node>, ws: seq<Node>, m: map<string, Node>, i: nat)
    requires GraphOk(g, nodes) && Copies(nodes, ws, m) && i < |nodes|
    ensures forall x, q :: x in g && x.node == nodes[i] && q in g[x] ==> q.node.name in m && Image(m, q).node in ws
    ensures forall x, q :: x in g && x.node == nodes[i] && q in g[x] ==> q in g && IsPort(Image(m, q))
  {
    forall x, q | x in g && x.node == nodes[i] && q in g[x]
      ensures q.node.name in m && Image(m, q).node in ws && q in g && IsPort(Image(m, q))
    {
      assert x.node in nodes && q.node in nodes;
      var j :| 0 <= j < |nodes| && nodes[j] == q.node;
      assert ws[j].name == nodes[j].name;
    }
  }

  // Everything the texts ask for can be linked.
  lemma {:induction false} TextsResolve(g: Links, nodes: seq<Node>, ws: seq<Node>, m: map<string, Node>, h: Links,
                                        k: nat)
    requires |ws| == |nodes| && SourceReady(g, nodes) && Copies(nodes, ws, m) && BareCopies(h, ws) && k <= |nodes|
    ensures AllResolve(h, m, AllReqs(g, nodes, ws, k))
    decreases k
  {
    hide SourceReady, Copies, BareCopies, Bare, Resolves, EdgeReqs, AllResolve;
    if k == 0 {
      NoneResolves(h, m);
    } else {
      TextsResolve(g, nodes, ws, m, h, k - 1);
      NodeResolves(g, nodes, ws, m, h, k - 1);
      BothResolve(h, m, AllReqs(g, nodes, ws, k - 1), EdgeReqs(g, nodes[k - 1], ws[k - 1]));
    }
  }

  lemma NoneResolves(h: Links, m: map<string, Node>)
    ensures AllResolve(h, m, [])
  {
  }

  lemma BothResolve(h: Links, m: map<string, Node>, a: seq<Req>, b: seq<Req>)
    requires AllResolve(h, m, a) && AllResolve(h, m, b)
    ensures AllResolve(h, m, a + b)
  {
    hide Resolves;
    forall r | r in a + b ensures Resolves(h, m, r) {
      assert r in a || r in b;
    }
  }

  lemma NodeResolves(g: Links, nodes: seq<Node>, ws: seq<Node>, m: map<string, Node>, h: Links, i: nat)
    requires SourceReady(g, nodes) && Copies(nodes, ws, m) && BareCopies(h, ws) && i < |nodes|
    ensures AllResolve(h, m, EdgeReqs(g, nodes[i], ws[i]))
  {
    assert |ws| == |nodes|;
    hide SourceReady, Copies, BareCopies, Bare, Resolves;
    forall r | r in EdgeReqs(g, nodes[i], ws[i]) ensures Resolves(h, m, r) {
      if r in DataReqs(g, nodes[i], ws[i], nodes[i].inputs) {
        DataResolves(g, nodes, ws, m, h, i, r);
      } else {
        CtrlResolves(g, nodes, ws, m, h, i, r);
      }
    }
  }

  lemma DataResolves(g: Links, nodes: seq<Node>, ws: seq<Node>, m: map<string, Node>, h: Links, i: nat, r: Req)
    requires SourceReady(g, nodes) && Copies(nodes, ws, m) && BareCopies(h, ws) && i < |nodes|
    requires r in DataReqs(g, nodes[i], ws[i], nodes[i].inputs)
    ensures Resolves(h, m, r)
  {
    var n, w := nodes[i], ws[i];
    PeersNamed(g, nodes, ws, m, i);
    assert w in ws && w.inputs == n.inputs;
    hide GraphOk, DataReqs;
    DataReqSource(g, n, w, n.inputs, r);
    var q := g[InData(n, r.slot)][0];
    assert q in g[InData(n, r.slot)];
    OwnPort(h, m[q.node.name], Image(m, q));
    OwnPort(h, w, InData(w, r.slot));
  }

  lemma CtrlResolves(g: Links, nodes: seq<Node>, ws: seq<Node>, m: map<string, Node>, h: Links, i: nat, r: Req)
    requires SourceReady(g, nodes) && Copies(nodes, ws, m) && BareCopies(h, ws) && i < |nodes|
    requires r in EdgeReqs(g, nodes[i], ws[i]) && r !in DataReqs(g, nodes[i], ws[i], nodes[i].inputs)
    ensures Resolves(h, m, r)
  {
    var n, w := nodes[i], ws[i];
    PeersNamed(g, nodes, ws, m, i);
    assert w in ws && w.inputs == n.inputs;
    hide GraphOk, DataReqs, Distinct, UniqueNames, IndicesFit;
    var ps := OutCtrlOf(At(g, InCtrl(n)));
    CtrlReqSource(ps, w, n.inputs, r);
    ControlSources(At(g, InCtrl(n)));
    var q :| q in ps && q.node.name == r.src;
    assert q in g[InCtrl(n)];
    OwnPort(h, m[q.node.name], OutCtrl(m[q.node.name]));
    OwnPort(h, w, InCtrl(w));
  }

  lemma {:induction false} DataReqSource(g: Links, n: Node, w: Node, k: nat, r: Req)
    requires r in DataReqs(g, n, w, k)
    ensures r.slot < k && r.dst == w && HasSource(g, InData(n, r.slot))
    ensures r.src == g[InData(n, r.slot)][0].node.name && r.idx == g[InData(n, r.slot)][0].idx
    decreases k
  {
    if k > 0 && r in DataReqs(g, n, w, k - 1) {
      DataReqSource(g, n, w, k - 1, r);
    }
  }

  lemma {:induction false} CtrlReqSource(ps: seq<Port>, w: Node, slot: nat, r: Req)
    requires r in CtrlReqs(ps, w, slot)
    ensures r.idx < 0 && r.dst == w && exists q :: q in ps && q.node.name == r.src
    decreases |ps|
  {
    CtrlReqsShape(ps, w, slot);
    if r in CtrlReqs(Front(ps), w, slot) {
      CtrlReqSource(Front(ps), w, slot, r);
      var q :| q in Front(ps) && q.node.name == r.src;
      assert q in ps;
    } else {
      assert Last(ps) in ps;
    }
  }

  // The round trip: linking what the texts of a graph ask for, between bare
  // copies of its nodes, gives every copy the edges of its original.
  lemma RoundTrip(g: Links, nodes: seq<Node>, ws: seq<Node>, m: map<string, Node>, h: Links)
    requires SourceReady(g, nodes) && Copies(nodes, ws, m) && BareCopies(h, ws)
    ensures AllResolve(h, m, AllReqs(g, nodes, ws, |nodes|))
    ensures WellLinked(LinkAll(h, m, AllReqs(g, nodes, ws, |nodes|)))
    ensures forall n :: n in nodes ==> SameInputs(g, LinkAll(h, m, AllReqs(g, nodes, ws, |nodes|)), m, n)
  {
    var rs := AllReqs(g, nodes, ws, |nodes|);
    TextsResolve(g, nodes, ws, m, h, |nodes|);
    forall x | x in h && x.InData? ensures |SourcesTo(m, rs, x)| <= 1 {
      var i :| 0 <= i < |ws| && ws[i] == x.node;
      CopySources(g, nodes, ws, m, i, x.idx);
    }
    assert WellLinked(h);
    LinkAllIns(h, m, rs);
    forall n | n in nodes ensures SameInputs(g, LinkAll(h, m, rs), m, n) {
      var i :| 0 <= i < |nodes| && nodes[i] == n;
      CopySame(g, nodes, ws, m, h, LinkAll(h, m, rs), i);
    }
  }

  lemma CopySources(g: Links, nodes: seq<Node>, ws: seq<Node>, m: map<string, Node>, i: nat, k: nat)
    requires SourceReady(g, nodes) && Copies(nodes, ws, m) && i < |nodes| && k < nodes[i].inputs
    ensures SourcesTo(m, AllReqs(g, nodes, ws, |nodes|), InData(ws[i], k)) == Sourced(g, m, InData(nodes[i], k))
  {
    PeersNamed(g, nodes, ws, m, i);
    AllReqsTo(g, m, nodes, ws, |nodes|, i, InData(ws[i], k));
    EdgeReqsTo(g, m, nodes[i], ws[i], k);
  }

  lemma CopyControls(g: Links, nodes: seq<Node>, ws: seq<Node>, m: map<string, Node>, i: nat)
    requires SourceReady(g, nodes) && Copies(nodes, ws, m) && i < |nodes|
    ensures SourcesTo(m, AllReqs(g, nodes, ws, |nodes|), InCtrl(ws[i])) == Images(m, OutCtrlOf(At(g, InCtrl(nodes[i]))))
  {
    PeersNamed(g, nodes, ws, m, i);
    AllReqsTo(g, m, nodes, ws, |nodes|, i, InCtrl(ws[i]));
    EdgeReqsTo(g, m, nodes[i], ws[i], 0);
  }

  lemma CopySame(g: Links, nodes: seq<Node>, ws: seq<Node>, m: map<string, Node>, h: Links, e: Links, i: nat)
    requires SourceReady(g, nodes) && Copies(nodes, ws, m) && BareCopies(h, ws) && i < |nodes| && e.Keys == h.Keys
    requires var rs := AllReqs(g, nodes, ws, |nodes|);
      forall x {:trigger e[x]} :: x in h && x.IsIn() ==> e[x] == SourcesTo(m, rs, x)
    ensures SameInputs(g, e, m, nodes[i])
  {
    hide SourceReady, Copies, BareCopies, Bare, HasPorts, AllReqs, SourcesTo, Image, Images, Sourced, OutCtrlOf, IsPort;
    CopyFacts(nodes, ws, m, h, i);
    var n, w := nodes[i], ws[i];
    CopyControls(g, nodes, ws, m, i);
    var rs := AllReqs(g, nodes, ws, |nodes|);
    ImageOfIns(m, n, w);
    forall k: nat | k < n.inputs
      ensures Image(m, InData(n, k)) in e && e[Image(m, InData(n, k))] == Sourced(g, m, InData(n, k))
    {
      CopySources(g, nodes, ws, m, i, k);
      assert InData(w, k) in h && e[InData(w, k)] == SourcesTo(m, rs, InData(w, k));
    }
    assert InCtrl(w) in h && e[InCtrl(w)] == SourcesTo(m, rs, InCtrl(w));
  }

  lemma ImageOfIns(m: map<string, Node>, n: Node, w: Node)
    requires n.name in m && m[n.name] == w
    ensures Image(m, InCtrl(n)) == InCtrl(w) &&
      forall k: nat {:trigger InData(n, k)} :: Image(m, InData(n, k)) == InData(w, k)
  {
  }

  lemma CopyFacts(nodes: seq<Node>, ws: seq<Node>, m: map<string, Node>, h: Links, i: nat)
    requires Copies(nodes, ws, m) && BareCopies(h, ws) && i < |nodes|
    ensures |ws| == |nodes| && nodes[i].name in m && m[nodes[i].name] == ws[i]
    ensures InCtrl(ws[i]) in h && forall k: nat {:trigger InData(ws[i], k)} :: k < nodes[i].inputs ==>
      InData(ws[i], k) in h
  {
    assert ws[i] in ws;
    OwnPort(h, ws[i], InCtrl(ws[i]));
    forall k: nat | k < nodes[i].inputs ensures InData(ws[i], k) in h {
      OwnPort(h, ws[i], InData(ws[i], k));
    }
  }

  // ------------------------------------------------------- what gets lost

  ghost predicate NoDataToControl(g: Links, nodes: seq<Node>) {
    forall n, q :: n in nodes && q in At(g, InCtrl(n)) ==> q.OutCtrl?
  }

  lemma {:induction false} OutCtrlAll(s: seq<Port>)
    ensures |OutCtrlOf(s)| <= |s|
    ensures (|OutCtrlOf(s)| == |s|) <==> forall q :: q in s ==> q.OutCtrl?
    ensures |OutCtrlOf(s)| == |s| ==> OutCtrlOf(s) == s
  {
    if s != [] {
      FrontLast(s);
      OutCtrlAll(Front(s));
      assert Last(s) in s;
    }
  }

  // All control inputs come back whole exactly when no data output is linked
  // to a control input: such links are not written.
  lemma ControlsBack(g: Links, nodes: seq<Node>, e: Links, m: map<string, Node>)
    requires forall n :: n in nodes ==> SameInputs(g, e, m, n)
    ensures (forall n :: n in nodes ==> At(e, Image(m, InCtrl(n))) == Images(m, At(g, InCtrl(n)))) <==>
      NoDataToControl(g, nodes)
  {
    forall n | n in nodes
      ensures At(e, Image(m, InCtrl(n))) == Images(m, At(g, InCtrl(n))) <==>
        forall q :: q in At(g, InCtrl(n)) ==> q.OutCtrl?
    {
      assert SameInputs(g, e, m, n);
      OutCtrlAll(At(g, InCtrl(n)));
    }
  }

  // A data input with at most one peer, a data output.
  ghost predicate OneSource(g: Links, p: Port) {
    |At(g, p)| <= 1 && forall o :: o in At(g, p) ==> o.OutData?
  }

  lemma SourcedWhole(g: Links, m: map<string, Node>, p: Port)
    ensures Sourced(g, m, p) == Images(m, At(g, p)) <==> OneSource(g, p)
  {
    var s := At(g, p);
    if |s| == 1 {
      assert Front(s) == [] && s[0] in s;
      assert Images(m, s) == [Image(m, s[0])];
      assert forall o :: o in s ==> o == s[0];
    }
  }

  // All data inputs come back whole exactly when each has at most one peer, a
  // data output: control links to data inputs are not written.
  lemma DataBack(g: Links, nodes: seq<Node>, e: Links, m: map<string, Node>)
    requires forall n :: n in nodes ==> SameInputs(g, e, m, n)
    ensures (forall n, k: nat :: n in nodes && k < n.inputs ==>
               At(e, Image(m, InData(n, k))) == Images(m, At(g, InData(n, k)))) <==>
            (forall n, k: nat :: n in nodes && k < n.inputs ==> OneSource(g, InData(n, k)))
  {
    hide OneSource, Sourced;
    forall n, k: nat | n in nodes && k < n.inputs
      ensures At(e, Image(m, InData(n, k))) == Images(m, At(g, InData(n, k))) <==> OneSource(g, InData(n, k))
    {
      assert SameInputs(g, e, m, n);
      SourcedWhole(g, m, InData(n, k));
    }
  }

  lemma {:induction false} ImagesCount(m: map<string, Node>, ps: seq<Port>, o: Port)
    requires forall q :: q in ps && Image(m, q) == Image(m, o) ==> q == o
    ensures multiset(Images(m, ps))[Image(m, o)] == multiset(ps)[o]
  {
    if ps != [] {
      FrontLast(ps);
      ImagesCount(m, Front(ps), o);
      assert multiset(ps) == multiset(Front(ps)) + multiset{Last(ps)};
      assert Last(ps) in ps;
    }
  }

  lemma ImageInjective(nodes: seq<Node>, ws: seq<Node>, m: map<string, Node>, p: Port, q: Port)
    requires Copies(nodes, ws, m) && p.node in nodes && q.node in nodes && Image(m, p) == Image(m, q)
    ensures p == q
  {
    var i :| 0 <= i < |nodes| && nodes[i] == p.node;
    var j :| 0 <= j < |nodes| && nodes[j] == q.node;
    assert ws[i].name == p.node.name && ws[j].name == q.node.name;
  }

  // Every data edge and every control edge comes back as often as it was there;
  // at a data input this needs that nothing else is linked to it.
  lemma EdgesBack(g: Links, nodes: seq<Node>, ws: seq<Node>, m: map<string, Node>, e: Links, o: Port, i: Port)
    requires SourceReady(g, nodes) && Copies(nodes, ws, m) && WellLinked(e)
    requires forall n :: n in nodes ==> SameInputs(g, e, m, n)
    requires o in g && i in g && o.node in nodes && i.node in nodes && o.IsOut() && i.IsIn() && o.OutData? == i.InData?
    requires Image(m, o) in e && (i.InData? ==> OneSource(g, i))
    ensures Image(m, i) in e && Mult(e, Image(m, o), Image(m, i)) == Mult(g, o, i)
  {
    var ps := if i.InData? then At(g, i) else OutCtrlOf(At(g, i));
    assert IsPort(i) && SameInputs(g, e, m, i.node);
    SourcedWhole(g, m, i);
    assert Image(m, i) in e && e[Image(m, i)] == Images(m, ps);
    ControlSources(At(g, i));
    forall q | q in ps && Image(m, q) == Image(m, o) ensures q == o {
      assert q in g[i];
      ImageInjective(nodes, ws, m, q, o);
    }
    ImagesCount(m, ps, o);
    assert Mult(e, Image(m, o), Image(m, i)) == Mult(e, Image(m, i), Image(m, o));
    assert Mult(g, o, i) == Mult(g, i, o);
    if i.InCtrl? {
      OutCtrlCount(At(g, i), o);
    }
  }

  lemma {:induction false} OutCtrlCount(s: seq<Port>, o: Port)
    requires o.OutCtrl?
    ensures multiset(OutCtrlOf(s))[o] == multiset(s)[o]
  {
    if s != [] {
      FrontLast(s);
      OutCtrlCount(Front(s), o);
      assert multiset(s) == multiset(Front(s)) + multiset{Last(s)};
    }
  }
}
