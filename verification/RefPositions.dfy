// The positions of a function operator: which Data nodes and which NetOutput
// inputs of its subgraphs belong to which of its inputs and outputs, and which
// positions the body of a loop identifies.
module RefPositions {
  import opened Links

  // The classified boundary of a function operator.
  datatype Func = Func(root: Node, loop: bool, data: seq<seq<Node>>, nets: seq<seq<Port>>, pairs: seq<(nat, nat)>)

  datatype Option<T> = None | Some(value: T)

  // The index attribute of Data nodes and of the inputs of NetOutput nodes.
  datatype Tags = Tags(data: map<Node, nat>, nets: map<Port, nat>)

  // The direct nodes of the subgraphs of the root graph, and the links.
  datatype Scope = Scope(subgraphs: map<string, seq<Node>>, links: Links, tags: Tags)

  const MAX_ELEMENTS: nat := 100

  // ------------------------------------------------- nodes of the subgraphs

  // The subgraphs that exist.
  function Found(c: Scope, names: seq<string>): seq<seq<Node>> {
    if names == [] then []
    else Found(c, Front(names)) + if Last(names) in c.subgraphs then [c.subgraphs[Last(names)]] else []
  }

  function OfKind(ns: seq<Node>, kind: string): seq<Node> {
    if ns == [] then [] else OfKind(Front(ns), kind) + if Last(ns).kind == kind then [Last(ns)] else []
  }

  function DataOf(found: seq<seq<Node>>): seq<Node> {
    if found == [] then [] else DataOf(Front(found)) + OfKind(Last(found), "Data")
  }

  // The first subgraph of a loop is its condition, whose NetOutput is skipped.
  function NetsOf(found: seq<seq<Node>>, loop: bool): seq<Node> {
    if found == [] then []
    else NetsOf(Front(found), loop) + if loop && |found| == 1 then [] else OfKind(Last(found), "NetOutput")
  }

  method GetDataAndNetoutputOfSubGraph(c: Scope, names: seq<string>, loop: bool)
    returns (data: seq<Node>, nets: seq<Node>)
    ensures data == DataOf(Found(c, names)) && nets == NetsOf(Found(c, names), loop)
  {
    data, nets := [], [];
    var idx := 0;
    for k := 0 to |names|
      invariant idx == |Found(c, names[..k])|
      invariant data == DataOf(Found(c, names[..k])) && nets == NetsOf(Found(c, names[..k]), loop)
    {
      assert Front(names[..k + 1]) == names[..k];
      if names[k] in c.subgraphs {
        ghost var before := Found(c, names[..k]);
        assert Front(before + [c.subgraphs[names[k]]]) == before;
        data, nets := AddBoundary(c.subgraphs[names[k]], loop && idx == 0, data, nets);
        idx := idx + 1;
      } else {
        assert Found(c, names[..k + 1]) == Found(c, names[..k]);
      }
    }
    assert names[..|names|] == names;
  }

  // The direct nodes of one subgraph.
  method AddBoundary(nodes: seq<Node>, skip: bool, d: seq<Node>, n: seq<Node>)
      returns (data: seq<Node>, nets: seq<Node>)
    ensures data == d + OfKind(nodes, "Data") && nets == n + if skip then [] else OfKind(nodes, "NetOutput")
  {
    data, nets := d, n;
    for i := 0 to |nodes|
      invariant data == d + OfKind(nodes[..i], "Data")
      invariant nets == n + if skip then [] else OfKind(nodes[..i], "NetOutput")
    {
      assert Front(nodes[..i + 1]) == nodes[..i];
      if nodes[i].kind == "Data" {
        data := data + [nodes[i]];
      } else if nodes[i].kind == "NetOutput" {
        if !skip {
          nets := nets + [nodes[i]];
        }
      }
    }
    assert nodes[..|nodes|] == nodes;
  }

  lemma {:induction false} OfKindAre(ns: seq<Node>, kind: string)
    ensures forall n :: n in OfKind(ns, kind) <==> n in ns && n.kind == kind
  {
    if ns != [] {
      FrontLast(ns);
      OfKindAre(Front(ns), kind);
    }
  }

  // The Data and NetOutput nodes come from the subgraphs that the operator names.
  ghost predicate InSubgraph(c: Scope, names: seq<string>, n: Node) {
    exists s :: s in names && s in c.subgraphs && n in c.subgraphs[s]
  }

  lemma {:induction false} FoundIn(c: Scope, names: seq<string>, k: nat, n: Node)
    requires k < |Found(c, names)| && n in Found(c, names)[k]
    ensures InSubgraph(c, names, n)
  {
    FrontLast(names);
    if k < |Found(c, Front(names))| {
      FoundIn(c, Front(names), k, n);
      var s :| s in Front(names) && s in c.subgraphs && n in c.subgraphs[s];
      assert s in names;
    }
  }

  ghost predicate InSome(found: seq<seq<Node>>, n: Node) {
    exists k :: 0 <= k < |found| && n in found[k]
  }

  lemma InSomeMore(found: seq<seq<Node>>, n: Node)
    requires found != [] && (InSome(Front(found), n) || n in Last(found))
    ensures InSome(found, n)
  {
    if n in Last(found) {
      assert n in found[|found| - 1];
    } else {
      var k :| 0 <= k < |Front(found)| && n in Front(found)[k];
      assert n in found[k];
    }
  }

  lemma {:induction false} BoundaryOf(found: seq<seq<Node>>, loop: bool, n: Node)
    ensures n in DataOf(found) ==> n.kind == "Data" && InSome(found, n)
    ensures n in NetsOf(found, loop) ==> n.kind == "NetOutput" && InSome(found, n)
  {
    if found != [] {
      BoundaryOf(Front(found), loop, n);
      OfKindAre(Last(found), "Data");
      OfKindAre(Last(found), "NetOutput");
      if InSome(Front(found), n) || n in Last(found) {
        InSomeMore(found, n);
      }
    }
  }

  // --------------------------------------------------------- classification

  // The Data nodes with index i; they are taken from the back.
  function DataAt(t: Tags, ds: seq<Node>, i: nat): seq<Node> {
    if ds == [] then []
    else (if Last(ds) in t.data && t.data[Last(ds)] == i then [Last(ds)] else []) + DataAt(t, Front(ds), i)
  }

  predicate DataTagged(t: Tags, ds: seq<Node>, size: nat) {
    forall d :: d in ds ==> d in t.data && t.data[d] < size
  }

  function ClassedData(t: Tags, ds: seq<Node>, size: nat): seq<seq<Node>> {
    seq(size, i requires 0 <= i < size => DataAt(t, ds, i))
  }

  // The nodes still to be taken complete the classes.
  ghost predicate Filling(t: Tags, all: seq<Node>, rest: seq<Node>, classed: seq<seq<Node>>) {
    forall i :: 0 <= i < |classed| ==> classed[i] + DataAt(t, rest, i) == DataAt(t, all, i)
  }

  lemma DataStart(t: Tags, all: seq<Node>, classed: seq<seq<Node>>)
    requires forall i :: 0 <= i < |classed| ==> classed[i] == []
    ensures Filling(t, all, all, classed)
  {
  }

  lemma DataDone(t: Tags, all: seq<Node>, classed: seq<seq<Node>>)
    requires Filling(t, all, [], classed)
    ensures classed == ClassedData(t, all, |classed|)
  {
    forall i | 0 <= i < |classed| ensures classed[i] == DataAt(t, all, i) {
      assert classed[i] + DataAt(t, [], i) == classed[i];
    }
  }

  lemma DataMoved(t: Tags, all: seq<Node>, rest: seq<Node>, classed: seq<seq<Node>>)
    requires rest != [] && Last(rest) in t.data && t.data[Last(rest)] < |classed| && Filling(t, all, rest, classed)
    ensures var at := t.data[Last(rest)];
      Filling(t, all, rest[..|rest| - 1], classed[at := classed[at] + [Last(rest)]])
  {
    var at := t.data[Last(rest)];
    var next := classed[at := classed[at] + [Last(rest)]];
    assert rest[..|rest| - 1] == Front(rest);
    forall i | 0 <= i < |next| ensures next[i] + DataAt(t, Front(rest), i) == DataAt(t, all, i) {
      assert classed[i] + DataAt(t, rest, i) == DataAt(t, all, i);
      Associative(classed[i], if at == i then [Last(rest)] else [], DataAt(t, Front(rest), i));
    }
  }

  method ProcessSubgraphDataNodes(t: Tags, dataNodes: seq<Node>, size: nat) returns (ok: bool, classed: seq<seq<Node>>)
    ensures ok <==> DataTagged(t, dataNodes, size)
    ensures ok ==> classed == ClassedData(t, dataNodes, size)
  {
    hide DataAt, Filling;
    classed := seq(size, _ => []);
    DataStart(t, dataNodes, classed);
    for k := 0 to |dataNodes|
      invariant forall i :: 0 <= i < k ==> dataNodes[i] in t.data
    {
      if dataNodes[k] !in t.data {
        assert dataNodes[k] in dataNodes;
        return false, classed;
      }
    }
    var rest := dataNodes;
    while rest != []
      invariant rest <= dataNodes && |classed| == size
      invariant forall k :: |rest| <= k < |dataNodes| ==> t.data[dataNodes[k]] < size
      invariant Filling(t, dataNodes, rest, classed)
    {
      var data := rest[|rest| - 1];
      assert data == dataNodes[|rest| - 1] && data in dataNodes;
      if t.data[data] >= size {
        return false, classed;
      }
      DataMoved(t, dataNodes, rest, classed);
      classed := classed[t.data[data] := classed[t.data[data]] + [data]];
      rest := rest[..|rest| - 1];
    }
    DataDone(t, dataNodes, classed);
    ok := true;
  }

  // The inputs of the nodes ns, and those with index i.
  function DataInputs(n: Node, k: nat): seq<Port> {
    if k == 0 then [] else DataInputs(n, k - 1) + [InData(n, k - 1)]
  }

  function InputsOf(ns: seq<Node>): seq<Port> {
    if ns == [] then [] else InputsOf(Front(ns)) + DataInputs(Last(ns), Last(ns).inputs)
  }

  function NetAt(t: Tags, ps: seq<Port>, i: nat): seq<Port> {
    if ps == [] then []
    else NetAt(t, Front(ps), i) + if Last(ps) in t.nets && t.nets[Last(ps)] == i then [Last(ps)] else []
  }

  predicate NetsTagged(t: Tags, ps: seq<Port>, size: nat) {
    forall p :: p in ps && p in t.nets ==> t.nets[p] < size
  }

  function ClassedNets(t: Tags, ps: seq<Port>, size: nat): seq<seq<Port>> {
    seq(size, i requires 0 <= i < size => NetAt(t, ps, i))
  }

  method ProcessSubgraphNetoutput(t: Tags, nets: seq<Node>, size: nat) returns (ok: bool, classed: seq<seq<Port>>)
    ensures ok <==> NetsTagged(t, InputsOf(nets), size)
    ensures ok ==> classed == ClassedNets(t, InputsOf(nets), size)
  {
    classed := ClassedNets(t, [], size);
    ghost var ps: seq<Port> := [];
    for k := 0 to |nets|
      invariant ps == InputsOf(nets[..k])
      invariant NetsTagged(t, ps, size) && classed == ClassedNets(t, ps, size)
    {
      assert Front(nets[..k + 1]) == nets[..k];
      ghost var before := ps;
      assert ps == before + DataInputs(nets[k], 0);
      for i := 0 to nets[k].inputs
        invariant ps == before + DataInputs(nets[k], i)
        invariant NetsTagged(t, ps, size) && classed == ClassedNets(t, ps, size)
      {
        var p := InData(nets[k], i);
        Associative(before, DataInputs(nets[k], i), [p]);
        if p in t.nets && t.nets[p] >= size {
          InputListed(nets, k, i);
          return false, classed;
        }
        classed := Enter(t, ps, p, size, classed);
        ps := ps + [p];
      }
    }
    assert nets[..|nets|] == nets;
    ok := true;
  }

  method Enter(t: Tags, ghost ps: seq<Port>, p: Port, size: nat, classed: seq<seq<Port>>) returns (r: seq<seq<Port>>)
    requires classed == ClassedNets(t, ps, size) && (p in t.nets ==> t.nets[p] < size)
    ensures r == ClassedNets(t, ps + [p], size)
  {
    assert Front(ps + [p]) == ps;
    r := if p in t.nets then classed[t.nets[p] := classed[t.nets[p]] + [p]] else classed;
    forall i | 0 <= i < size ensures r[i] == NetAt(t, ps + [p], i) {
      assert NetAt(t, ps + [p], i) == NetAt(t, ps, i) + if p in t.nets && t.nets[p] == i then [p] else [];
      assert NetAt(t, ps, i) + [] == NetAt(t, ps, i);
    }
  }

  lemma {:induction false} InputListed(ns: seq<Node>, k: nat, i: nat)
    requires k < |ns| && i < ns[k].inputs
    ensures InData(ns[k], i) in InputsOf(ns)
  {
    DataInputsAre(Last(ns), Last(ns).inputs, InData(ns[k], i));
    assert k == |ns| - 1 ==> InData(ns[k], i) in DataInputs(Last(ns), Last(ns).inputs);
    if k < |ns| - 1 {
      assert Front(ns)[k] == ns[k];
      InputListed(Front(ns), k, i);
    }
  }

  lemma {:induction false} DataInputsAre(n: Node, k: nat, p: Port)
    ensures p in DataInputs(n, k) <==> p.InData? && p.node == n && p.idx < k
  {
    if k > 0 {
      DataInputsAre(n, k - 1, p);
    }
  }

  lemma {:induction false} InputsAre(ns: seq<Node>, p: Port)
    requires p in InputsOf(ns)
    ensures p.InData? && p.node in ns
  {
    FrontLast(ns);
    if p in InputsOf(Front(ns)) {
      InputsAre(Front(ns), p);
    } else {
      DataInputsAre(Last(ns), Last(ns).inputs, p);
    }
  }

  lemma {:induction false} DataAtIs(t: Tags, ds: seq<Node>, i: nat, d: Node)
    ensures d in DataAt(t, ds, i) <==> d in ds && d in t.data && t.data[d] == i
  {
    if ds != [] {
      FrontLast(ds);
      DataAtIs(t, Front(ds), i, d);
    }
  }

  lemma {:induction false} NetAtIs(t: Tags, ps: seq<Port>, i: nat, p: Port)
    ensures p in NetAt(t, ps, i) <==> p in ps && p in t.nets && t.nets[p] == i
  {
    if ps != [] {
      FrontLast(ps);
      NetAtIs(t, Front(ps), i, p);
    }
  }

  // ------------------------------------------------------ pairs of a loop

  // The NetOutput met last while the first k positions are built.
  function LastNet(nets: seq<seq<Port>>, k: nat): Option<Node>
    requires k <= |nets|
  {
    if k == 0 then None
    else if nets[k - 1] != [] then Some(Last(nets[k - 1]).node)
    else LastNet(nets, k - 1)
  }

  // Input k of the NetOutput n, fed by a Data node: the positions of both; an
  // index that is not there counts as 0.
  function PairAt(c: Scope, n: Node, k: nat): seq<(nat, nat)> {
    var p := InData(n, k);
    var peers := At(c.links, p);
    if peers != [] && peers[0].OutData? && peers[0].node.kind == "Data" then
      [(if peers[0].node in c.tags.data then c.tags.data[peers[0].node] else 0,
        if p in c.tags.nets then c.tags.nets[p] else 0)]
    else []
  }

  function PairsOf(c: Scope, n: Node, k: nat): seq<(nat, nat)> {
    if k == 0 then [] else PairsOf(c, n, k - 1) + PairAt(c, n, k - 1)
  }

  function LoopPairs(c: Scope, root: Node, nets: seq<seq<Port>>): seq<(nat, nat)> {
    if |nets| < root.inputs then [] else
    match LastNet(nets, root.inputs)
    case None => []
    case Some(n) => PairsOf(c, n, n.inputs)
  }

  // --------------------------------------------------- function operators

  predicate IsLoop(n: Node) {
    n.kind == "While"
  }

  function SizeFor(ds: seq<Node>): nat {
    if |ds| > MAX_ELEMENTS then |ds| else MAX_ELEMENTS
  }

  predicate Classifies(c: Scope, n: Node) {
    var found := Found(c, n.subgraphs);
    var size := SizeFor(DataOf(found));
    DataTagged(c.tags, DataOf(found), size) && NetsTagged(c.tags, InputsOf(NetsOf(found, IsLoop(n))), size)
  }

  function FuncWith(c: Scope, n: Node, data: seq<seq<Node>>, nets: seq<seq<Port>>): Func {
    Func(n, IsLoop(n), data, nets, if IsLoop(n) then LoopPairs(c, n, nets) else [])
  }

  function FuncOf(c: Scope, n: Node): Func {
    var found := Found(c, n.subgraphs);
    var size := SizeFor(DataOf(found));
    FuncWith(c, n, ClassedData(c.tags, DataOf(found), size),
      ClassedNets(c.tags, InputsOf(NetsOf(found, IsLoop(n))), size))
  }

  // The function operators among the nodes.
  function FuncsOf(c: Scope, ns: seq<Node>): seq<Func> {
    if ns == [] then [] else FuncsOf(c, Front(ns)) + if Last(ns).subgraphs != [] then [FuncOf(c, Last(ns))] else []
  }

  // A Data node or an input of a NetOutput stands at the position it names.
  lemma FuncBoundary(c: Scope, n: Node)
    ensures var f := FuncOf(c, n);
      && (forall i, d :: 0 <= i < |f.data| && d in f.data[i] ==>
            d.kind == "Data" && InSubgraph(c, n.subgraphs, d) && d in c.tags.data && c.tags.data[d] == i)
      && (forall i, p :: 0 <= i < |f.nets| && p in f.nets[i] ==>
            p.InData? && p.node.kind == "NetOutput" && InSubgraph(c, n.subgraphs, p.node)
            && p in c.tags.nets && c.tags.nets[p] == i)
  {
    var found, f := Found(c, n.subgraphs), FuncOf(c, n);
    hide InSubgraph, Found, DataOf, NetsOf, InputsOf, DataAt, NetAt;
    forall i, d | 0 <= i < |f.data| && d in f.data[i]
      ensures d.kind == "Data" && InSubgraph(c, n.subgraphs, d) && d in c.tags.data && c.tags.data[d] == i
    {
      DataAtIs(c.tags, DataOf(found), i, d);
      BoundaryOf(found, IsLoop(n), d);
      SomeSubgraph(c, n.subgraphs, d);
    }
    forall i, p | 0 <= i < |f.nets| && p in f.nets[i]
      ensures p.InData? && p.node.kind == "NetOutput" && InSubgraph(c, n.subgraphs, p.node)
      ensures p in c.tags.nets && c.tags.nets[p] == i
    {
      NetAtIs(c.tags, InputsOf(NetsOf(found, IsLoop(n))), i, p);
      InputsAre(NetsOf(found, IsLoop(n)), p);
      BoundaryOf(found, IsLoop(n), p.node);
      SomeSubgraph(c, n.subgraphs, p.node);
    }
  }

  lemma SomeSubgraph(c: Scope, names: seq<string>, n: Node)
    requires InSome(Found(c, names), n)
    ensures InSubgraph(c, names, n)
  {
    var k :| 0 <= k < |Found(c, names)| && n in Found(c, names)[k];
    FoundIn(c, names, k, n);
  }
}
