// FormatRefiner: origin formats spread from the nodes that have them, along
// the edges in both directions and through the alias classes of subgraphs.
module FormatRefiners {
  import opened Links
  import opened RefRelations
  import opened Formats

  // An anchor point has some real format.
  predicate RealFormat(d: Desc) {
    d.format != ND && d.format != RESERVED
  }

  class FormatRefiner {
    const s: Setting
    const callbacks: Callbacks
    ghost const region: set<Node>  // nodes that edges and aliases do not leave
    ghost const palette: set<Format>  // formats that occur at all
    var descs: Descs
    var graphInferred: bool

    constructor (s: Setting, callbacks: Callbacks, descs: Descs, ghost region: set<Node>, ghost palette: set<Format>)
      requires WellSet(s) && Region(s, region) && descs.Keys == s.dims.Keys && InPalette(descs, palette)
      requires LawfulCallbacks(callbacks, palette)
      ensures Valid() && this.s == s && this.callbacks == callbacks && this.descs == descs
      ensures this.region == region && this.palette == palette && !graphInferred
    {
      this.s, this.callbacks, this.descs, this.region, this.palette := s, callbacks, descs, region, palette;
      graphInferred := false;
    }

    ghost predicate Valid()
      reads this
    {
      && WellSet(s) && Region(s, region) && descs.Keys == s.dims.Keys && InPalette(descs, palette)
      && LawfulCallbacks(callbacks, palette)
    }

    method ReflectionProcess(reflection: set<Port>, nodes: seq<Node>, f: Format) returns (r: seq<Node>)
      modifies this`descs
      ensures descs == SetAll(old(descs), reflection, f)
      ensures nodes <= r && (forall c :: c in reflection ==> c.node in r)
      ensures forall n :: n in r ==> n in nodes || exists c :: c in reflection && c.node == n
    {
      r := nodes;
      var rest := reflection;
      ghost var start := descs;
      assert descs == SetAll(start, reflection - rest, f);
      while rest != {}
        invariant rest <= reflection && descs == SetAll(start, reflection - rest, f)
        invariant nodes <= r && (forall c :: c in reflection - rest ==> c.node in r)
        invariant forall n :: n in r ==> n in nodes || exists c :: c in reflection && c.node == n
        decreases rest
      {
        var c :| c in rest;
        rest := rest - {c};
        if c in descs {
          descs := descs[c := Desc(f, f)];
        }
        r := r + [c.node];
      }
      assert reflection - rest == reflection;
    }

    // The node's infer-format function, or the default one.
    method InferOriginFormat(n: Node) returns (ok: bool)
      requires Valid() && n in region
      modifies this`descs
      ensures Valid() && Changed(old(descs), descs, region)
      ensures forall p :: p in descs && p.node != n ==> descs[p] == old(descs)[p]
    {
      var ins, outs := InDescs(descs, n), OutDescs(descs, n);
      DescsAmong(descs, n, palette);
      var r;
      if n.kind in callbacks {
        r := callbacks[n.kind](n.name, ins, outs);
      } else {
        r := DefaultInferFormat(ins, outs);
        DefaultIsLawful(ins, outs, palette);
      }
      ok := r.Inferred?;
      if ok {
        ghost var start := descs;
        PutChanges(start, n, r.ins, r.outs, region, palette);
        descs := Put(descs, n, r.ins, r.outs);
      }
    }

    // What both directions do at the other end p of an edge. Only the forward
    // direction meets in-slots, and there a NetOutput ends the propagation.
    method InferPeer(p: Port, f: Format, nodes: seq<Node>, ghost src: Port, ghost rest: set<Node>,
                     ghost todo: set<Port>)
        returns (ok: bool, r: seq<Node>)
      requires Valid() && p in descs && p.node in region && f != ND && f in palette
      requires Waiting(s, descs, nodes, rest, todo) && forall n :: n in nodes ==> n in region
      requires p.InData? ==> SourceIs(s, p, src) && src in descs && descs[src].origin != ND
      modifies this`descs
      ensures Valid() && Advances(old(descs), nodes, descs, r, region, palette)
      ensures ok ==> Waiting(s, descs, r, rest, todo) && (descs[p].origin != ND || Exempt(s, p))
      ensures Informed(s, old(descs), descs, p, f, region)
    {
      ghost var d := descs;
      hide Waiting, Advances, LawfulCallbacks, WellSet, Region, LookUp, SetAll, InPalette;
      AdvancesSelf(d, nodes, region, palette);
      ok, r := true, nodes;
      var reflection := LookUp(s.table, p);
      if descs[p].origin == ND && !Exempt(s, p) {
        ReflectionFacts(s, region, p);
        if reflection == {} {
          ok, r := InferAlone(p, f, nodes, src, rest, todo);
        } else {
          r := ReflectionProcess(reflection, nodes, f);
          FedTogether(s, d, nodes, reflection, r, f, region, palette, rest, todo, p);
        }
      }
    }

    method InferAlone(p: Port, f: Format, nodes: seq<Node>, ghost src: Port, ghost rest: set<Node>,
                      ghost todo: set<Port>)
        returns (ok: bool, r: seq<Node>)
      requires Valid() && p in descs && p.node in region && f != ND && f in palette && descs[p].origin == ND
      requires Waiting(s, descs, nodes, rest, todo) && forall n :: n in nodes ==> n in region
      requires p.InData? ==> SourceIs(s, p, src) && src in descs && descs[src].origin != ND
      modifies this`descs
      ensures Valid() && Advances(old(descs), nodes, descs, r, region, palette)
      ensures ok ==> Waiting(s, descs, r, rest, todo) && descs[p].origin != ND
      ensures OnlyFrom(old(descs), descs, p, f, region)
    {
      ghost var d := descs;
      hide Waiting, Advances, LawfulCallbacks, WellSet, Region, SetAll, InPalette;
      ok, r := true, nodes;
      descs := descs[p := Desc(f, f)];
      ghost var e := descs;
      FedOne(d, e, p, f, region, palette);
      ChangedSelf(e, region);
      if p.InData? && p.node.kind == "NetOutput" {
        WaitingEnd(s, d, nodes, e, region, rest, todo, p, src);
        FedAlone(s, d, nodes, e, descs, r, region, palette, rest, todo, p);
        return;
      }
      ok := InferOriginFormat(p.node);
      if ok {
        r := nodes + [p.node];
      }
      FedAlone(s, d, nodes, e, descs, r, region, palette, rest, todo, p);
    }

    method BackInferProcess(nodes: seq<Node>, node: Node, ghost rest: set<Node>) returns (ok: bool, r: seq<Node>)
      requires Valid() && node in region && forall n :: n in nodes ==> n in region
      requires Waiting(s, descs, nodes, rest, Todo(s, node, 0, 0))
      modifies this`descs
      ensures Valid() && Advances(old(descs), nodes, descs, r, region, palette)
      ensures ok ==> Waiting(s, descs, r, rest, Todo(s, node, node.inputs, 0))
    {
      ghost var d := descs;
      AdvancesSelf(d, nodes, region, palette);
      hide Waiting, Advances, LawfulCallbacks, WellSet, Region, InPalette, Todo;
      ok, r := true, nodes;
      var k := 0;
      while ok && k < node.inputs
        invariant k <= node.inputs && Valid() && Advances(d, nodes, descs, r, region, palette)
        invariant ok ==> Waiting(s, descs, r, rest, Todo(s, node, k, 0))
      {
        ghost var e, q := descs, r;
        QueueInRegion(d, nodes, e, q, region, palette);
        ok, r := BackInferOne(r, node, k, rest);
        AdvancesOn(d, nodes, e, q, descs, r, region, palette);
        k := k + 1;
      }
    }

    // One in-anchor: its format goes to the output that feeds it.
    method BackInferOne(nodes: seq<Node>, node: Node, k: nat, ghost rest: set<Node>) returns (ok: bool, r: seq<Node>)
      requires Valid() && node in region && k < node.inputs && forall n :: n in nodes ==> n in region
      requires Waiting(s, descs, nodes, rest, Todo(s, node, k, 0))
      modifies this`descs
      ensures Valid() && Advances(old(descs), nodes, descs, r, region, palette)
      ensures ok ==> Waiting(s, descs, r, rest, Todo(s, node, k + 1, 0))
    {
      ghost var d := descs;
      var i := InData(node, k);
      assert i in descs && i in s.links && Settled(s, descs, i) <==> Settled(s, descs, i);
      TodoSteps(s, node, k, 0);
      AdvancesSelf(d, nodes, region, palette);
      hide Waiting, Advances, LawfulCallbacks, Region, WellSet, InPalette, Todo;
      ok, r := true, nodes;
      var f := descs[i].origin;
      if f != ND && s.links[i] != [] && s.links[i][0].OutData? {
        var o := s.links[i][0];
        OnlySource(s, region, i);
        PaletteAt(descs, palette, i);
        ok, r := InferPeer(o, f, nodes, o, rest, Todo(s, node, k, 0));
      }
      if ok {
        WaitingDone(s, descs, r, rest, Todo(s, node, k, 0), i);
      }
    }

    method ForwardInferProcess(nodes: seq<Node>, node: Node, ghost rest: set<Node>) returns (ok: bool, r: seq<Node>)
      requires Valid() && node in region && forall n :: n in nodes ==> n in region
      requires Waiting(s, descs, nodes, rest, Todo(s, node, node.inputs, 0))
      modifies this`descs
      ensures Valid() && Advances(old(descs), nodes, descs, r, region, palette)
      ensures ok ==> Waiting(s, descs, r, rest, {})
    {
      ghost var d := descs;
      AdvancesSelf(d, nodes, region, palette);
      TodoSteps(s, node, 0, 0);
      hide Waiting, Advances, LawfulCallbacks, WellSet, Region, InPalette, Todo;
      ok, r := true, nodes;
      var k := 0;
      while ok && k < node.outputs
        invariant k <= node.outputs && Valid() && Advances(d, nodes, descs, r, region, palette)
        invariant ok ==> Waiting(s, descs, r, rest, Todo(s, node, node.inputs, k))
      {
        ghost var e, q := descs, r;
        QueueInRegion(d, nodes, e, q, region, palette);
        ok, r := ForwardInferOne(r, node, k, rest);
        AdvancesOn(d, nodes, e, q, descs, r, region, palette);
        k := k + 1;
      }
    }

    // One out-anchor: its format goes to every data input that it feeds.
    method ForwardInferOne(nodes: seq<Node>, node: Node, k: nat, ghost rest: set<Node>) returns (ok: bool, r: seq<Node>)
      requires Valid() && node in region && k < node.outputs && forall n :: n in nodes ==> n in region
      requires Waiting(s, descs, nodes, rest, Todo(s, node, node.inputs, k))
      modifies this`descs
      ensures Valid() && Advances(old(descs), nodes, descs, r, region, palette)
      ensures ok ==> Waiting(s, descs, r, rest, Todo(s, node, node.inputs, k + 1))
    {
      ghost var d := descs;
      var o := OutData(node, k);
      assert o in descs && o in s.links;
      TodoSteps(s, node, node.inputs, k);
      AdvancesSelf(d, nodes, region, palette);
      hide Waiting, Advances, LawfulCallbacks, Region, WellSet, InPalette, Todo, Fed, InDataOf, Changed;
      ok, r := true, nodes;
      var f := descs[o].origin;
      if f != ND {
        PaletteAt(descs, palette, o);
        var peers := InDataOf(s.links[o]);
        FedNone(s, descs);
        var j := 0;
        while ok && j < |peers|
          invariant j <= |peers| && Valid() && Advances(d, nodes, descs, r, region, palette) && o in descs &&
            descs[o].origin != ND
          invariant ok ==> Waiting(s, descs, r, rest, Todo(s, node, node.inputs, k)) && Fed(s, descs, peers[..j])
        {
          ghost var e, q := descs, r;
          QueueInRegion(d, nodes, e, q, region, palette);
          PeerOf(s, region, o, j);
          ok, r := InferPeer(peers[j], f, r, o, rest, Todo(s, node, node.inputs, k));
          AdvanceKeeps(e, q, descs, r, region, palette, o);
          AdvancesOn(d, nodes, e, q, descs, r, region, palette);
          if ok {
            FedStep(s, e, descs, region, peers, j);
          }
          j := j + 1;
        }
        if ok {
          assert peers[..|peers|] == peers;
          FedSettles(s, descs, o);
        }
      }
      if ok {
        WaitingDone(s, descs, r, rest, Todo(s, node, node.inputs, k), o);
      }
    }

    // The worklist. Every round pops a node, and a round that queues anything
    // leaves fewer slots ND.
    method AnchorProcess(anchor: Node, ghost rest: set<Node>) returns (ok: bool)
      requires Valid() && anchor in region && Waiting(s, descs, [anchor], rest, {})
      modifies this`descs
      ensures Valid() && Changed(old(descs), descs, region)
      ensures ok ==> Waiting(s, descs, [], rest, {})
    {
      ghost var d := descs;
      AdvancesSelf(d, [anchor], region, palette);
      hide Waiting, Advances, LawfulCallbacks, WellSet, Region, InPalette, Todo, NdSlots, Changed;
      ChangedSelf(d, region);
      var nodes := [anchor];
      ok := true;
      while nodes != []
        invariant Valid() && Changed(d, descs, region) && forall n :: n in nodes ==> n in region
        invariant Waiting(s, descs, nodes, rest, {})
        decreases NdSlots(descs), |nodes|
      {
        ghost var e, q := descs, nodes;
        WaitingPopped(s, descs, nodes, rest);
        var node := nodes[0];
        nodes := nodes[1..];
        ok, nodes := BackInferProcess(nodes, node, rest);
        ghost var m, t := descs, nodes;
        RoundChanges(d, e, q[1..], m, t, region, palette);
        if !ok {
          return;
        }
        ok, nodes := ForwardInferProcess(nodes, node, rest);
        RoundChanges(d, m, t, descs, nodes, region, palette);
        AdvancesOn(e, q[1..], m, t, descs, nodes, region, palette);
        RoundPays(e, q[1..], descs, nodes, region, palette);
        if !ok {
          return;
        }
      }
    }

    // The nodes with a real format, and (once per input) the Data nodes.
    method GetAnchorPoints(nodes: seq<Node>) returns (anchors: seq<Node>, dataNodes: seq<Node>)
      requires Valid() && forall n :: n in nodes ==> n in region
      ensures forall n :: n in anchors <==> n in nodes && IsAnchorPoint(descs, n)
      ensures forall n :: n in dataNodes <==> n in nodes && n.kind == "Data" && n.inputs > 0
    {
      anchors, dataNodes := [], [];
      for i := 0 to |nodes|
        invariant forall n :: n in anchors <==> n in nodes[..i] && IsAnchorPoint(descs, n)
        invariant forall n :: n in dataNodes <==> n in nodes[..i] && n.kind == "Data" && n.inputs > 0
      {
        var n := nodes[i];
        var found := HasRealFormat(n);
        for k := 0 to n.inputs
          invariant forall m :: m in dataNodes <==>
            (m in nodes[..i] && m.kind == "Data" && m.inputs > 0) || (m == n && n.kind == "Data" && k > 0)
        {
          if n.kind == "Data" {
            dataNodes := dataNodes + [n];
          }
        }
        if found {
          anchors := anchors + [n];
        }
        assert nodes[..i + 1] == nodes[..i] + [n];
      }
      assert nodes[..|nodes|] == nodes;
    }

    method HasRealFormat(n: Node) returns (found: bool)
      requires Valid() && n in region
      ensures found == IsAnchorPoint(descs, n)
    {
      found := false;
      for k := 0 to n.inputs
        invariant found <==> exists j: nat :: j < k && RealFormat(descs[InData(n, j)])
      {
        if RealFormat(descs[InData(n, k)]) {
          found := true;
        }
      }
      ghost var inputs := found;
      for k := 0 to n.outputs
        invariant found <==> inputs || exists j: nat :: j < k && RealFormat(descs[OutData(n, j)])
      {
        if RealFormat(descs[OutData(n, k)]) {
          found := true;
        }
      }
    }

    method RefreshOriginFormatOfAnchor(anchors: seq<Node>)
      requires Valid() && forall n :: n in anchors ==> n in region
      modifies this`descs
      ensures descs == Refreshed(old(descs), anchors) && Valid()
    {
      ghost var d := descs;
      hide LawfulCallbacks, WellSet, Region, InPalette, Refreshed;
      RefreshedNone(d);
      for i := 0 to |anchors|
        invariant Valid() && descs == Refreshed(d, anchors[..i])
      {
        RefreshNode(anchors[i]);
        RefreshedOneMore(d, anchors[..i], anchors[i]);
        assert anchors[..i + 1] == anchors[..i] + [anchors[i]];
      }
      assert anchors[..|anchors|] == anchors;
    }

    method RefreshNode(n: Node)
      requires Valid() && n in region
      modifies this`descs
      ensures descs == Refreshed(old(descs), [n]) && Valid()
    {
      ghost var d := descs;
      SlotsStart(d, n);
      RefreshedWhole(d, n, s);
      RefreshedAmong(d, [n], palette);
      SlotsKeys(s, region, n);
      hide LawfulCallbacks, WellSet, Region, InPalette, Refreshed, RefreshedSlots;
      for k := 0 to n.inputs
        invariant descs == RefreshedSlots(d, n, k, 0)
      {
        InSlotStep(d, n, k);
        descs := descs[InData(n, k) := RefreshedDesc(descs[InData(n, k)])];
      }
      for k := 0 to n.outputs
        invariant descs == RefreshedSlots(d, n, n.inputs, k)
      {
        OutSlotStep(d, n, n.inputs, k);
        descs := descs[OutData(n, k) := RefreshedDesc(descs[OutData(n, k)])];
      }
    }

    // Data nodes that no anchor point reached start again with the graph's
    // data format.
    method DataNodeFormatProcess(dataNodes: seq<Node>, dataFormat: Format, internal: bool, ghost rest: set<Node>)
        returns (ok: bool)
      requires Valid() && (forall n :: n in dataNodes ==> n in region) && Among(Desc(dataFormat, dataFormat), palette)
      requires Waiting(s, descs, [], rest, {})
      modifies this`descs
      ensures Valid() && Changed(old(descs), descs, region)
      ensures ok ==> Waiting(s, descs, [], rest, {})
    {
      ghost var d := descs;
      hide Waiting, LawfulCallbacks, WellSet, Region, InPalette, Changed;
      ChangedSelf(d, region);
      if !(graphInferred && !internal && dataFormat != ND) {
        return true;
      }
      var uninferred := [];
      for i := 0 to |dataNodes|
        invariant Valid() && Changed(d, descs, region) && Waiting(s, descs, uninferred, rest, {})
        invariant forall n :: n in uninferred ==> n in region
      {
        var n := dataNodes[i];
        if !(InData(n, 0) in descs && OutData(n, 0) in descs) {
          return false;
        }
        if descs[OutData(n, 0)].origin == ND && s.dims[InData(n, 0)] >= DIM_SIZE_4D {
          ghost var e := descs;
          descs := descs[InData(n, 0) := Desc(dataFormat, dataFormat)];
          descs := descs[OutData(n, 0) := Desc(dataFormat, dataFormat)];
          DataNodeSet(s, e, descs, n, dataFormat, region, palette, uninferred, rest);
          ChangedOn(d, e, descs, region);
          uninferred := uninferred + [n];
        }
      }
      ghost var e := descs;
      ok := ProcessAll(uninferred, rest);
      ChangedOn(d, e, descs, region);
    }

    // AnchorProcess from one node after the other.
    method ProcessAll(starts: seq<Node>, ghost rest: set<Node>) returns (ok: bool)
      requires Valid() && (forall n :: n in starts ==> n in region) && Waiting(s, descs, starts, rest, {})
      modifies this`descs
      ensures Valid() && Changed(old(descs), descs, region)
      ensures ok ==> Waiting(s, descs, [], rest, {})
    {
      ghost var d := descs;
      hide Waiting, LawfulCallbacks, WellSet, Region, InPalette, Changed;
      ChangedSelf(d, region);
      assert starts[0..] == starts;
      ok := true;
      for k := 0 to |starts|
        invariant Valid() && Changed(d, descs, region) && Waiting(s, descs, starts[k..], rest, {})
      {
        ghost var e, later := descs, NodeSet(starts[k + 1..]) + rest;
        WaitingMoves(s, descs, starts[k..], rest, [starts[k]], later);
        ok := AnchorProcess(starts[k], later);
        ChangedOn(d, e, descs, region);
        if !ok {
          return;
        }
        WaitingMoves(s, descs, [], later, starts[k + 1..], rest);
      }
      assert starts[|starts|..] == [];
    }

    method InferOrigineFormat(nodes: seq<Node>, dataFormat: Format, internal: bool) returns (ok: bool)
      requires Valid() && (forall n :: n in nodes ==> n in region) && Among(Desc(dataFormat, dataFormat), palette)
      modifies this
      ensures Valid() && forall p :: p in descs && p.node !in region ==> p in old(descs) && descs[p] == old(descs)[p]
      // Unsettled slots are only left at nodes that began with an origin format
      // without being anchor points,
      ensures ok ==> graphInferred && Waiting(s, descs, [], Stale(old(descs), nodes), {})
      // so when there is no such node every edge is closed.
      ensures ok && Stale(old(descs), nodes) == {} ==> EdgesClosed(s, descs)
    {
      ghost var d, stale := descs, Stale(descs, nodes);
      var anchors, dataNodes := GetAnchorPoints(nodes);
      RefreshOriginFormatOfAnchor(anchors);
      ghost var e := descs;
      RefreshedWaits(s, d, nodes, anchors);
      hide LawfulCallbacks, WellSet, Region, InPalette, Waiting, Stale;
      ok := ProcessAll(anchors, stale);
      ghost var f := descs;
      if ok {
        ok := DataNodeFormatProcess(dataNodes, dataFormat, internal, stale);
        ChangedOn(e, f, descs, region);
        graphInferred := true;
      }
      assert Changed(e, descs, region);
      RefreshedElsewhere(d, anchors, e, descs, region);
      if ok && stale == {} {
        NothingWaiting(s, descs);
      }
    }
  }

  ghost predicate IsAnchorPoint(d: Descs, n: Node) {
    || (exists k: nat :: k < n.inputs && InData(n, k) in d && RealFormat(d[InData(n, k)]))
    || (exists k: nat :: k < n.outputs && OutData(n, k) in d && RealFormat(d[OutData(n, k)]))
  }

  function RefreshedDesc(d: Desc): Desc {
    if d.origin == ND || d.origin == RESERVED then d.(origin := d.format) else d
  }

  function Refreshed(d: Descs, anchors: seq<Node>): (e: Descs)
    ensures e.Keys == d.Keys
  {
    map p | p in d :: if p.node in anchors then RefreshedDesc(d[p]) else d[p]
  }

  function RefreshedSlots(d: Descs, n: Node, i: nat, j: nat): (e: Descs)
    ensures e.Keys == d.Keys
  {
    map p | p in d ::
      if p.node == n && ((p.InData? && p.idx < i) || (p.OutData? && p.idx < j)) then RefreshedDesc(d[p]) else d[p]
  }

  lemma SlotsStart(d: Descs, n: Node)
    ensures RefreshedSlots(d, n, 0, 0) == d
  {
  }

  lemma SlotsKeys(s: Setting, region: set<Node>, n: Node)
    requires Region(s, region) && n in region
    ensures forall k: nat {:trigger InData(n, k)} :: k < n.inputs ==> InData(n, k) in s.dims
    ensures forall k: nat {:trigger OutData(n, k)} :: k < n.outputs ==> OutData(n, k) in s.dims
  {
  }

  lemma InSlotStep(d: Descs, n: Node, k: nat)
    requires InData(n, k) in d
    ensures var e := RefreshedSlots(d, n, k, 0);
      e[InData(n, k) := RefreshedDesc(e[InData(n, k)])] == RefreshedSlots(d, n, k + 1, 0)
  {
  }

  lemma OutSlotStep(d: Descs, n: Node, i: nat, k: nat)
    requires OutData(n, k) in d
    ensures var e := RefreshedSlots(d, n, i, k);
      e[OutData(n, k) := RefreshedDesc(e[OutData(n, k)])] == RefreshedSlots(d, n, i, k + 1)
  {
  }

  lemma RefreshedAmong(d: Descs, ns: seq<Node>, palette: set<Format>)
    requires InPalette(d, palette)
    ensures InPalette(Refreshed(d, ns), palette)
  {
  }

  lemma RefreshedWhole(d: Descs, n: Node, s: Setting)
    requires WellSet(s) && d.Keys == s.dims.Keys
    ensures RefreshedSlots(d, n, n.inputs, n.outputs) == Refreshed(d, [n])
  {
  }

  lemma RefreshedNone(d: Descs)
    ensures Refreshed(d, []) == d
  {
  }

  lemma RefreshedOneMore(d: Descs, ns: seq<Node>, n: Node)
    ensures Refreshed(Refreshed(d, ns), [n]) == Refreshed(d, ns + [n])
  {
  }

  // Nodes that have an origin format without being anchor points.
  ghost function Stale(d: Descs, nodes: seq<Node>): set<Node> {
    set p | p in d && d[p].origin != ND && !(p.node in nodes && IsAnchorPoint(d, p.node)) :: p.node
  }

  lemma RefreshedWaits(s: Setting, d: Descs, nodes: seq<Node>, anchors: seq<Node>)
    requires forall n :: n in anchors <==> n in nodes && IsAnchorPoint(d, n)
    ensures Waiting(s, Refreshed(d, anchors), anchors, Stale(d, nodes), {})
  {
    hide IsAnchorPoint;
    var e := Refreshed(d, anchors);
    forall p | p in e ensures Settled(s, e, p) || p.node in anchors || p.node in Stale(d, nodes) {
      if e[p].origin != ND && p.node !in anchors {
        assert e[p] == d[p] && p.node in Stale(d, nodes);
      }
    }
  }

  lemma RefreshedElsewhere(d: Descs, anchors: seq<Node>, e: Descs, f: Descs, region: set<Node>)
    requires e == Refreshed(d, anchors) && Changed(e, f, region) && forall n :: n in anchors ==> n in region
    ensures forall p :: p in f && p.node !in region ==> p in d && f[p] == d[p]
  {
    forall p | p in f && p.node !in region ensures p in d && f[p] == d[p] {
      assert f[p] == e[p];
    }
  }

  // Being queued or being expected later is the same to a waiting slot.
  lemma WaitingMoves(s: Setting, d: Descs, q: seq<Node>, rest: set<Node>, r: seq<Node>, later: set<Node>)
    requires Waiting(s, d, q, rest, {}) && forall n :: n in q || n in rest ==> n in r || n in later
    ensures Waiting(s, d, r, later, {})
  {
  }

  lemma DataNodeSet(s: Setting, d: Descs, e: Descs, n: Node, f: Format, region: set<Node>, palette: set<Format>,
                    q: seq<Node>, rest: set<Node>)
    requires InData(n, 0) in d && OutData(n, 0) in d && f != ND && f in palette && n in region && InPalette(d, palette)
    requires e == d[InData(n, 0) := Desc(f, f)][OutData(n, 0) := Desc(f, f)] && Waiting(s, d, q, rest, {})
    ensures Changed(d, e, region) && InPalette(e, palette) && Waiting(s, e, q + [n], rest, {})
  {
    assert Announced(d, e, q + [n]);
    hide Waiting;
    WaitingGrows(s, d, q, e, q + [n], region, rest, {});
  }

  lemma QueueInRegion(d: Descs, q: seq<Node>, e: Descs, r: seq<Node>, region: set<Node>, palette: set<Format>)
    requires Advances(d, q, e, r, region, palette)
    ensures forall n :: n in r ==> n in region
  {
  }

  lemma RoundChanges(d: Descs, e: Descs, q: seq<Node>, f: Descs, r: seq<Node>, region: set<Node>, palette: set<Format>)
    requires Changed(d, e, region) && Advances(e, q, f, r, region, palette)
    ensures Changed(d, f, region) && forall n :: n in r ==> n in region
  {
    ChangedOn(d, e, f, region);
  }

  lemma RoundPays(d: Descs, q: seq<Node>, e: Descs, r: seq<Node>, region: set<Node>, palette: set<Format>)
    requires Advances(d, q, e, r, region, palette)
    ensures NdSlots(e) < NdSlots(d) || (NdSlots(e) == NdSlots(d) && |r| <= |q|) || (r == q && NdSlots(e) < NdSlots(d))
  {
    NdShrinks(d, e, region);
    assert NdSlots(e) < NdSlots(d) || NdSlots(e) == NdSlots(d);
  }

  lemma ChangedSelf(d: Descs, region: set<Node>)
    ensures Changed(d, d, region)
  {
  }

  lemma PaletteAt(d: Descs, palette: set<Format>, p: Port)
    requires InPalette(d, palette) && p in d
    ensures d[p].origin != ND ==> d[p].origin in palette
  {
  }

  lemma AdvanceKeeps(d: Descs, q: seq<Node>, e: Descs, r: seq<Node>, region: set<Node>, palette: set<Format>, p: Port)
    requires Advances(d, q, e, r, region, palette) && p in d
    ensures Changed(d, e, region) && p in e && (d[p].origin != ND ==> e[p].origin != ND)
  {
    assert Settles(d[p], e[p]);
  }

  // What an input looks at is a slot inside the region.
  lemma OnlySource(s: Setting, region: set<Node>, i: Port)
    requires WellSet(s) && Region(s, region) && i in s.dims && i.InData? && i.node in region && s.links[i] != []
    ensures var o := s.links[i][0];
      Sees(s.links, i, o) && (o.OutData? ==> o in s.dims && o.node in region) && (!o.OutData? ==> o !in s.dims)
    ensures forall q :: Sees(s.links, i, q) ==> q == s.links[i][0]
  {
    assert s.links[i][0] in s.links[i];
  }

  lemma {:induction false} InDataKept(ps: seq<Port>)
    ensures forall p: Port {:trigger p in InDataOf(ps)} :: p in InDataOf(ps) <==> p in ps && p.InData?
  {
    if ps != [] {
      FrontLast(ps);
      InDataKept(Front(ps));
    }
  }

  lemma InDataAt(ps: seq<Port>, j: nat)
    requires j < |InDataOf(ps)|
    ensures InDataOf(ps)[j] in ps && InDataOf(ps)[j].InData?
  {
    InDataKept(ps);
    assert InDataOf(ps)[j] in InDataOf(ps);
  }

  lemma PeerOf(s: Setting, region: set<Node>, o: Port, j: nat)
    requires WellSet(s) && Region(s, region) && o in s.dims && o.OutData? && o.node in region &&
      j < |InDataOf(s.links[o])|
    ensures var i := InDataOf(s.links[o])[j];
      SourceIs(s, i, o) && i in s.dims && i.node in region && i.InData?
  {
    var i := InDataOf(s.links[o])[j];
    InDataAt(s.links[o], j);
    PeersAgree(s.links, o, i);
  }

  ghost predicate Fed(s: Setting, d: Descs, ps: seq<Port>) {
    forall p :: p in ps && p in d && p in s.dims ==> d[p].origin != ND || Exempt(s, p)
  }

  lemma FedNone(s: Setting, d: Descs)
    ensures Fed(s, d, [])
  {
  }

  lemma FedStep(s: Setting, d: Descs, e: Descs, region: set<Node>, ps: seq<Port>, j: nat)
    requires j < |ps| && Fed(s, d, ps[..j]) && Changed(d, e, region) && ps[j] in e && ps[j] in s.dims
    requires e[ps[j]].origin != ND || Exempt(s, ps[j])
    ensures Fed(s, e, ps[..j + 1])
  {
    forall p | p in ps[..j + 1] && p in e && p in s.dims ensures e[p].origin != ND || Exempt(s, p) {
      if p != ps[j] {
        assert p in ps[..j] && Settles(d[p], e[p]);
      }
    }
  }

  lemma FedSettles(s: Setting, d: Descs, o: Port)
    requires WellSet(s) && o in s.dims && o.OutData? && o in d && Fed(s, d, InDataOf(s.links[o]))
    ensures Settled(s, d, o)
  {
    InDataKept(s.links[o]);
    forall q | Sees(s.links, o, q) && q in d && q in s.dims ensures d[q].origin != ND || Exempt(s, q) {
      assert q in s.links[o] && q.IsIn() && IsSlot(q);
    }
  }

  // p took the format f, and nothing else changed but what p's node inferred
  // from it; a NetOutput input infers nothing.
  ghost predicate OnlyFrom(d: Descs, e: Descs, p: Port, f: Format, region: set<Node>) {
    && Changed(d[p := Desc(f, f)], e, region)
    && (forall x :: x in d && x in e && x.node != p.node ==> e[x] == d[x])
    && (p.InData? && p.node.kind == "NetOutput" ==> e == d[p := Desc(f, f)])
  }

  // What reaching the slot p with the format f does: nothing when p is inferred
  // or exempt, else the whole alias class of p takes f, or p alone when it has
  // no aliases.
  ghost predicate Informed(s: Setting, d: Descs, e: Descs, p: Port, f: Format, region: set<Node>)
    requires p in s.dims && p in d
  {
    if d[p].origin != ND || Exempt(s, p) then e == d
    else if LookUp(s.table, p) != {} then e == SetAll(d, LookUp(s.table, p), f)
    else OnlyFrom(d, e, p, f, region)
  }

  lemma DescsAmong(d: Descs, n: Node, palette: set<Format>)
    requires forall k: nat {:trigger InData(n, k)} :: k < n.inputs ==> InData(n, k) in d
    requires forall k: nat {:trigger OutData(n, k)} :: k < n.outputs ==> OutData(n, k) in d
    requires InPalette(d, palette)
    ensures AllAmong(InDescs(d, n), palette) && AllAmong(OutDescs(d, n), palette)
  {
  }

  lemma ReflectionFacts(s: Setting, region: set<Node>, p: Port)
    requires WellSet(s) && Region(s, region) && p.node in region
    ensures LookUp(s.table, p) != {} ==> p in LookUp(s.table, p)
    ensures forall c :: c in LookUp(s.table, p) ==> c.node in region
  {
  }

  lemma FedTogether(s: Setting, d: Descs, q: seq<Node>, cells: set<Port>, r: seq<Node>, f: Format, region: set<Node>,
                    palette: set<Format>, rest: set<Node>, todo: set<Port>, p: Port)
    requires InPalette(d, palette) && Waiting(s, d, q, rest, todo) && f != ND && f in palette
    requires p in cells && p in d && d[p].origin == ND && forall c :: c in cells ==> c.node in region
    requires q <= r && (forall c :: c in cells ==> c.node in r)
    requires forall n :: n in r ==> n in q || exists c :: c in cells && c.node == n
    requires forall n :: n in q ==> n in region
    ensures var e := SetAll(d, cells, f);
      && Advances(d, q, e, r, region, palette) && Waiting(s, e, r, rest, todo) && InPalette(e, palette)
      && e[p].origin != ND
  {
    var e := SetAll(d, cells, f);
    SetAllChanges(d, cells, f, region, palette);
    Pays(d, e, region, p);
    assert Announced(d, e, r);
    hide Waiting, Changed;
    WaitingGrows(s, d, q, e, r, region, rest, todo);
  }

  lemma FedOne(d: Descs, e: Descs, p: Port, f: Format, region: set<Node>, palette: set<Format>)
    requires p in d && e == d[p := Desc(f, f)] && p.node in region && InPalette(d, palette)
    requires f != ND && f in palette && d[p].origin == ND
    ensures Changed(d, e, region) && InPalette(e, palette)
  {
  }

  // Setting p and inferring the rest of its node pays for queueing the node.
  lemma FedAlone(s: Setting, d: Descs, q: seq<Node>, e: Descs, f: Descs, r: seq<Node>, region: set<Node>,
                 palette: set<Format>, rest: set<Node>, todo: set<Port>, p: Port)
    requires Waiting(s, d, q, rest, todo) && Changed(d, e, region) && Changed(e, f, region) && InPalette(f, palette)
    requires p in d && d[p].origin == ND && e[p].origin != ND && p.node in region
    requires forall x :: x in d && x != p ==> e[x] == d[x]
    requires forall x :: x in d && x.node != p.node ==> f[x] == e[x]
    requires r == q || r == q + [p.node]
    requires forall n :: n in q ==> n in region
    ensures Advances(d, q, f, r, region, palette) && f[p].origin != ND
    ensures r != q ==> Waiting(s, f, r, rest, todo)
  {
    ChangedOn(d, e, f, region);
    assert Settles(e[p], f[p]);
    Pays(d, f, region, p);
    if r != q {
      assert Announced(d, f, r);
      hide Waiting, Changed;
      WaitingGrows(s, d, q, f, r, region, rest, todo);
    }
  }
}
