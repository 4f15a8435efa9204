// RemoveExtraOutEdge: removing whatever a node still feeds.
module Dropping {
  import opened Links
  import opened Anchors
  import opened Degrees
  import opened Targets
  import opened Rewiring
  import opened Moving
  import opened Isolation

  // r is g without the edges from f to xs.
  ghost predicate DroppedAll(g: Links, r: Links, f: Port, xs: seq<Port>) {
    && f in g && r.Keys == g.Keys && CleanData(r)
    && multiset(r[f]) == multiset(g[f]) - multiset(xs)
    && (forall p {:trigger r[p]} :: p in g && p != f && p !in xs ==> r[p] == g[p])
    && (forall x {:trigger r[x]} :: x in g && x in xs && x.InData? ==> r[x] == [])
  }

  lemma DroppedElse(g: Links, r: Links, f: Port, xs: seq<Port>, p: Port)
    requires DroppedAll(g, r, f, xs) && p in g && p != f && p !in xs
    ensures p in r && r[p] == g[p]
  {
  }

  lemma DroppedInput(g: Links, r: Links, f: Port, xs: seq<Port>, x: Port)
    requires DroppedAll(g, r, f, xs) && x in g && x in xs && x.InData?
    ensures x in r && r[x] == []
  {
  }

  lemma DroppedParts(g: Links, r: Links, f: Port, xs: seq<Port>)
    requires DroppedAll(g, r, f, xs)
    ensures f in g && r.Keys == g.Keys && CleanData(r)
  {
  }

  lemma DroppedNone(g: Links, f: Port)
    requires f in g && CleanData(g)
    ensures DroppedAll(g, g, f, [])
  {
  }

  lemma DropStep(g: Links, r: Links, f: Port, xs: seq<Port>, x: Port)
    requires WellLinked(r) && DroppedAll(g, r, f, xs) && f.IsOut() && x in r[f]
    ensures x in r && x.IsIn() && CanUnlink(r, f, x)
    ensures DroppedAll(g, Unlinked(r, f, x), f, xs + [x])
  {
    PeerIsIn(r, f, x);
    UnlinkClean(r, f, x);
    RemoveFirstMultiset(r[f], x);
    OneMore(multiset(g[f]), multiset(r[f]), xs, x);
    hide WellLinked, CleanData, CanUnlink;
    var e := Unlinked(r, f, x);
    assert e[f] == RemoveFirst(r[f], x);
    forall y | y in g && y in xs + [x] && y.InData? ensures e[y] == [] {
      if y != x {
        assert e[y] == r[y];
      }
    }
  }

  ghost predicate DropState(g: Links, r: Links, f: Port, ps: seq<Port>, k: nat, clean: bool)
    requires k <= |ps|
  {
    && f in g && r.Keys == g.Keys
    && multiset(ps) <= multiset(g[f])
    && multiset(r[f]) == multiset(g[f]) - multiset(ps[..k])
    && (clean ==> DroppedAll(g, r, f, ps[..k]))
  }

  lemma DropStateStep(g0: Links, g: Links, r: Links, v: Node, f: Port, ps: seq<Port>, k: nat, clean: bool)
    requires k < |ps| && DropState(g, r, f, ps, k, clean) && Rewired(g0, r, v) && f.IsOut()
    ensures f in r && ps[k] in r && ps[k].IsIn() && CanUnlink(r, f, ps[k])
    ensures DropState(g, Unlinked(r, f, ps[k]), f, ps, k + 1, clean)
  {
    RewiredParts(g0, r, v);
    StillThere(g[f], r[f], ps, k);
    assert ps[..k + 1] == ps[..k] + [ps[k]];
    PeerIsIn(r, f, ps[k]);
    PeersAgree(r, f, ps[k]);
    RemoveFirstMultiset(r[f], ps[k]);
    hide Rewired, WellLinked, DroppedAll, CanUnlink;
    if clean {
      DropStep(g, r, f, ps[..k], ps[k]);
    }
  }

  method DropLoop(u: Universe, f: Anchor, xs: seq<Anchor>, ghost g0: Links, ghost v: Node,
                  ghost g: Links, ghost ps: seq<Port>, ghost clean: bool) returns (ok: bool)
    requires Anchored(u) && Member(f, u) && f.port.IsOut() && f.port.node == v
    requires |ps| == |xs| && forall i :: 0 <= i < |xs| ==> Member(xs[i], u) && ps[i] == xs[i].port
    requires Rewired(g0, View(u), v) && DropState(g, View(u), f.port, ps, 0, clean)
    modifies u.Values`peers
    ensures Anchored(u) && Rewired(g0, View(u), v)
    ensures ok && DropState(g, View(u), f.port, ps, |ps|, clean)
  {
    hide Rewired, DropState, Anchored, CanUnlink, View;
    ok := true;
    var k := 0;
    while k < |xs|
      invariant k <= |xs| && ok
      invariant Anchored(u) && Rewired(g0, View(u), v)
      invariant DropState(g, View(u), f.port, ps, k, clean)
    {
      DropStateStep(g0, g, View(u), v, f.port, ps, k, clean);
      ok := RemoveEdge(u, f, xs[k], g0, v);
      k := k + 1;
    }
  }

  method DropPeers(u: Universe, f: Anchor, xs: seq<Anchor>, ghost g0: Links, ghost v: Node) returns (ok: bool)
    requires Anchored(u) && Member(f, u) && f.port.IsOut() && f.port.node == v && forall x :: x in xs ==> Member(x, u)
    requires Rewired(g0, View(u), v) && multiset(PortsOf(xs)) <= multiset(View(u)[f.port])
    modifies u.Values`peers
    ensures Anchored(u) && Rewired(g0, View(u), v) && ok
    ensures old(CleanData(View(u))) ==> DroppedAll(old(View(u)), View(u), f.port, PortsOf(xs))
  {
    ghost var g, ps := View(u), PortsOf(xs);
    ghost var clean := CleanData(g);
    if clean {
      DroppedNone(g, f.port);
    }
    assert ps[..0] == [] && ps[..|ps|] == ps;
    assert DropState(g, g, f.port, ps, 0, clean);
    hide Rewired, Anchored, DroppedAll, View, PortsOf;
    ok := DropLoop(u, f, xs, g0, v, g, ps, clean);
  }

  // ------------------------------------------------------ one out port of v

  ghost predicate PortDropped(g: Links, r: Links, f: Port) {
    && f in g && r.Keys == g.Keys && CleanData(r) && r[f] == []
    && (forall p {:trigger r[p]} :: p in g && p != f && p !in g[f] ==> r[p] == g[p])
    && (forall x {:trigger r[x]} :: x in g && x in g[f] && x.InData? ==> r[x] == [])
  }

  lemma TwoDrops(g: Links, m: Links, r: Links, f: Port)
    requires WellLinked(g) && f in g && f.IsOut()
    requires DroppedAll(g, m, f, InDataOf(g[f])) && DroppedAll(m, r, f, InCtrlOf(m[f]))
    ensures PortDropped(g, r, f)
  {
    DataMoved(g, m, f);
    DroppedParts(g, m, f, InDataOf(g[f]));
    DroppedParts(m, r, f, InCtrlOf(m[f]));
    assert r[f] == [] by {
      assert multiset(r[f]) == multiset{};
      assert |multiset(r[f])| == 0;
    }
    hide WellLinked, InDataOf, InCtrlOf, CleanData, DroppedAll;
    forall p | p in g && p != f && p !in g[f] ensures r[p] == g[p] {
      DroppedElse(g, m, f, InDataOf(g[f]), p);
      DroppedElse(m, r, f, InCtrlOf(m[f]), p);
    }
    forall x | x in g && x in g[f] && x.InData? ensures r[x] == [] {
      DroppedInput(g, m, f, InDataOf(g[f]), x);
      DroppedElse(m, r, f, InCtrlOf(m[f]), x);
    }
  }

  lemma OneDrop(g: Links, r: Links, f: Port)
    requires WellLinked(g) && CleanData(g) && f in g && f.OutCtrl?
    requires DroppedAll(g, r, f, InCtrlOf(g[f]))
    ensures PortDropped(g, r, f)
  {
    CleanCtrlOut(g, f);
    assert |multiset(r[f])| == 0;
  }

  method DropPort(u: Universe, f: Anchor, ghost g0: Links, ghost v: Node) returns (ok: bool)
    requires Anchored(u) && Member(f, u) && f.port.IsOut() && f.port.node == v && Rewired(g0, View(u), v)
    modifies u.Values`peers
    ensures Anchored(u) && Rewired(g0, View(u), v) && ok
    ensures old(CleanData(View(u))) ==> PortDropped(old(View(u)), View(u), f.port)
  {
    ghost var g := View(u);
    hide Rewired, Anchored, DroppedAll, CleanData, PortDropped, WellLinked, View;
    RewiredParts(g0, g, v);
    if f.port.OutData? {
      ok := DropDataPeers(u, f, g0, v);
      ghost var m := View(u);
      if CleanData(g) {
        DroppedParts(g, m, f.port, InDataOf(g[f.port]));
      }
      ok := DropControlPeers(u, f, g0, v);
      if CleanData(g) {
        TwoDrops(g, m, View(u), f.port);
      }
    } else {
      ok := DropControlPeers(u, f, g0, v);
      if CleanData(g) {
        OneDrop(g, View(u), f.port);
      }
    }
  }

  method DropDataPeers(u: Universe, f: Anchor, ghost g0: Links, ghost v: Node) returns (ok: bool)
    requires Anchored(u) && Member(f, u) && f.port.OutData? && f.port.node == v && Rewired(g0, View(u), v)
    modifies u.Values`peers
    ensures Anchored(u) && Rewired(g0, View(u), v) && ok && f.port in old(View(u))
    ensures old(CleanData(View(u))) ==> DroppedAll(old(View(u)), View(u), f.port, InDataOf(old(View(u))[f.port]))
  {
    ghost var g := View(u);
    FilterPart(g[f.port]);
    var dataPeers := f.GetPeerInDataAnchors();
    PeersAreMembers(u, f, dataPeers);
    assert PortsOf(dataPeers) == InDataOf(g[f.port]);
    hide Rewired, Anchored, DroppedAll, CleanData, View, PortsOf, InDataOf;
    ok := DropPeers(u, f, dataPeers, g0, v);
  }

  method DropControlPeers(u: Universe, f: Anchor, ghost g0: Links, ghost v: Node) returns (ok: bool)
    requires Anchored(u) && Member(f, u) && f.port.IsOut() && f.port.node == v && Rewired(g0, View(u), v)
    modifies u.Values`peers
    ensures Anchored(u) && Rewired(g0, View(u), v) && ok && f.port in old(View(u))
    ensures old(CleanData(View(u))) ==> DroppedAll(old(View(u)), View(u), f.port, InCtrlOf(old(View(u))[f.port]))
  {
    ghost var g := View(u);
    FilterPart(g[f.port]);
    var ctrlPeers := f.GetPeerInControlAnchors();
    PeersAreMembers(u, f, ctrlPeers);
    assert PortsOf(ctrlPeers) == InCtrlOf(g[f.port]);
    hide Rewired, Anchored, DroppedAll, CleanData, View, PortsOf, InCtrlOf;
    ok := DropPeers(u, f, ctrlPeers, g0, v);
  }

  lemma PeersAreMembers(u: Universe, f: Anchor, xs: seq<Anchor>)
    requires Anchored(u) && Member(f, u) && forall x :: x in xs ==> x in f.peers
    ensures forall x :: x in xs ==> Member(x, u)
  {
  }

  // ------------------------------------------------------ all out ports of v

  ghost predicate DroppedThrough(g: Links, r: Links, v: Node, ps: seq<Port>) {
    && r.Keys == g.Keys && CleanData(r) && OutGrow(g, r, v)
    && (forall p {:trigger r[p]} :: p in g && p.node == v ==> r[p] == if p in ps then [] else g[p])
    && (forall x {:trigger r[x]} :: x in g && x.InData? && x.node != v ==>
         r[x] == if g[x] != [] && g[x][0] in ps then [] else g[x])
  }

  lemma DroppedStep(g: Links, r: Links, e: Links, v: Node, ps: seq<Port>, f: Port)
    requires WellLinked(r) && DroppedThrough(g, r, v, ps) && PortDropped(r, e, f)
    requires f.IsOut() && f.node == v && f !in ps
    requires forall x :: x in r[f] ==> x in r && x.node != v
    ensures DroppedThrough(g, e, v, ps + [f])
  {
    forall p | p in g && p.node == v ensures e[p] == if p in ps + [f] then [] else g[p] {
      if p != f {
        assert e[p] == r[p];
      }
    }
    forall x | x in g && x.InData? && x.node != v
      ensures e[x] == if g[x] != [] && g[x][0] in ps + [f] then [] else g[x]
    {
      DroppedStepAt(g, r, e, v, ps, f, x);
    }
    forall a, x | a in g && x in g && a.IsOut() && a.node != v && x.node != v ensures Mult(g, a, x) <= Mult(e, a, x) {
      assert a !in r[f];
      assert e[a] == r[a];
      assert Mult(g, a, x) <= Mult(r, a, x);
    }
  }

  lemma DroppedStepAt(g: Links, r: Links, e: Links, v: Node, ps: seq<Port>, f: Port, x: Port)
    requires WellLinked(r) && DroppedThrough(g, r, v, ps) && PortDropped(r, e, f)
    requires f.IsOut() && f.node == v && f !in ps && x in g && x.InData? && x.node != v
    ensures e[x] == if g[x] != [] && g[x][0] in ps + [f] then [] else g[x]
  {
    assert |r[x]| <= 1;
    assert Mult(r, f, x) == Mult(r, x, f);
    if x in r[f] {
      assert f in r[x] && r[x] == [f];
      assert g[x] == [f];
      assert e[x] == [];
    } else {
      assert f !in r[x];
      assert e[x] == r[x];
      assert g[x] != [] ==> g[x][0] in g[x];
    }
  }

  // The end of IsolateNode: nothing leaves v, and data inputs still fed by v
  // are left unconnected.
  ghost predicate OutsDropped(g: Links, r: Links, v: Node) {
    && r.Keys == g.Keys && CleanData(r) && OutGrow(g, r, v) && Refed(g, r, v, NoFeed, false)
    && (forall p {:trigger r[p]} :: p in g && p.node == v ==> r[p] == if p.IsOut() then [] else g[p])
  }

  lemma DroppedOuts(g: Links, r: Links, v: Node)
    requires WellLinked(g) && CleanData(g) && AllPorts(g) && DroppedThrough(g, r, v, OutPorts(v))
    ensures OutsDropped(g, r, v)
  {
    PortsOfNode(v);
    forall x | x in g && x.InData? && x.node != v ensures r[x] == Refeed(g, x, v, NoFeed, false) {
      if g[x] != [] {
        assert g[x][0] in g[x];
        assert g[x][0] in g && IsPort(g[x][0]) && g[x][0].IsOut();
        assert g[x][0] in OutPorts(v) <==> g[x][0].node == v;
      }
    }
  }

  method DropNext(u: Universe, f: Anchor, ghost g0: Links, ghost v: Node, ghost g: Links, ghost ps: seq<Port>,
                  ghost clean: bool)
    returns (ok: bool)
    requires Anchored(u) && Member(f, u) && f.port.IsOut() && f.port.node == v && f.port !in ps
    requires Rewired(g0, View(u), v) && WellLinked(g0) && NoSelfEdge(g0, v)
    requires clean ==> DroppedThrough(g, View(u), v, ps)
    modifies u.Values`peers
    ensures Anchored(u) && Rewired(g0, View(u), v) && ok
    ensures clean ==> DroppedThrough(g, View(u), v, ps + [f.port])
  {
    ghost var r := View(u);
    assert f.port in r;
    assert clean ==> CleanData(r);
    hide *;
    RewiredParts(g0, r, v);
    OwnedPeers(g0, r, v, f.port);
    ok := DropPort(u, f, g0, v);
    if clean {
      DroppedStep(g, r, View(u), v, ps, f.port);
    }
  }

  lemma DroppedStart(g: Links, v: Node)
    requires CleanData(g)
    ensures DroppedThrough(g, g, v, [])
  {
  }

  method DropOutputs(u: Universe, v: Node, ghost g0: Links, ghost g: Links, ghost clean: bool) returns (ok: bool)
    requires Anchored(u) && AllPorts(g0) && u.Keys == g0.Keys && InCtrl(v) in g0
    requires Rewired(g0, View(u), v) && WellLinked(g0) && NoSelfEdge(g0, v)
    requires clean ==> DroppedThrough(g, View(u), v, [])
    modifies u.Values`peers
    ensures Anchored(u) && Rewired(g0, View(u), v) && ok
    ensures clean ==> DroppedThrough(g, View(u), v, DataOutPorts(v, v.outputs))
  {
    hide Rewired, NoSelfEdge, DroppedThrough, Anchored, View, AllPorts, WellLinked;
    ok := true;
    var k := 0;
    while k < v.outputs
      invariant Anchored(u) && Rewired(g0, View(u), v) && k <= v.outputs && ok
      invariant clean ==> DroppedThrough(g, View(u), v, DataOutPorts(v, k))
    {
      PortAt(g0, g0, OutData(v, k));
      DataOutPortsFresh(v, k);
      AnchorAt(u, OutData(v, k));
      ok := DropNext(u, u[OutData(v, k)], g0, v, g, DataOutPorts(v, k), clean);
      k := k + 1;
    }
  }

  method RemoveExtraOutEdge(u: Universe, v: Node, ghost g0: Links) returns (ok: bool)
    requires Anchored(u) && AllPorts(g0) && u.Keys == g0.Keys && InCtrl(v) in g0
    requires Rewired(g0, View(u), v) && WellLinked(g0) && NoSelfEdge(g0, v)
    modifies u.Values`peers
    ensures Anchored(u) && Rewired(g0, View(u), v) && ok
    ensures old(CleanData(View(u))) ==> OutsDropped(old(View(u)), View(u), v)
  {
    hide Rewired, NoSelfEdge, CleanData, DroppedThrough, Anchored, View, AllPorts, WellLinked, OutsDropped;
    ghost var g := View(u);
    ghost var clean := CleanData(g);
    RewiredParts(g0, g, v);
    if clean {
      DroppedStart(g, v);
    }
    ok := DropOutputs(u, v, g0, g, clean);
    PortAt(g0, g0, OutCtrl(v));
    AnchorAt(u, OutCtrl(v));
    DataOutPortsFresh(v, v.outputs);
    ok := DropNext(u, u[OutCtrl(v)], g0, v, g, DataOutPorts(v, v.outputs), clean);
    OutPortsAre(v);
    if clean {
      SamePorts(g0, g);
      DroppedOuts(g, View(u), v);
    }
  }
}
