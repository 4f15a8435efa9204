// IsolateNode: taking a node out of a graph while its consumers are re-fed
// from its first connected non-constant data input.
module Isolation {
  import opened Links
  import opened Anchors
  import opened Degrees
  import opened Targets
  import opened Rewiring
  import opened Moving

  predicate IsConstant(n: Node) {
    n.kind == "Const" || n.kind == "Constant"
  }

  datatype Feed = NoFeed | FeedFrom(source: Port)

  // The data source of input i of v.
  function SourceOf(g: Links, v: Node, i: nat): Feed {
    var s := At(g, InData(v, i));
    if s != [] && s[0].OutData? then FeedFrom(s[0]) else NoFeed
  }

  // The first connected non-constant source among the first k data inputs.
  function FeedUpTo(g: Links, v: Node, k: nat): Feed {
    if k == 0 then NoFeed
    else
      var f := FeedUpTo(g, v, k - 1);
      var s := SourceOf(g, v, k - 1);
      if f.NoFeed? && s.FeedFrom? && !IsConstant(s.source.node) then s else f
  }

  predicate FedBy(g: Links, x: Port, v: Node) {
    At(g, x) != [] && At(g, x)[0].node == v
  }

  function Refeed(g: Links, x: Port, v: Node, to: Feed, keep: bool): seq<Port> {
    if !FedBy(g, x, v) then At(g, x) else if to.FeedFrom? then [to.source] else if keep then At(g, x) else []
  }

  // Data inputs of other nodes: those fed by v are now fed by `to` (or, when
  // there is no source, as in keep), all others as in g.
  ghost predicate Refed(g: Links, r: Links, v: Node, to: Feed, keep: bool) {
    forall x {:trigger r[x]} :: x in g && x.InData? && x.node != v ==> x in r && r[x] == Refeed(g, x, v, to, keep)
  }

  ghost predicate NoPorts(g: Links, v: Node) {
    forall p {:trigger g[p]} :: p in g && p.node == v ==> g[p] == []
  }

  // ------------------------------------------------------ single edge changes

  method RemoveEdge(u: Universe, a: Anchor, b: Anchor, ghost g0: Links, ghost v: Node) returns (ok: bool)
    requires Anchored(u) && Member(a, u) && Member(b, u) && a.port.IsOut() && b.port.IsIn()
    requires a.port.node == v || b.port.node == v
    requires Rewired(g0, View(u), v)
    modifies u.Values`peers
    ensures Anchored(u) && Rewired(g0, View(u), v)
    ensures ok == CanUnlink(old(View(u)), a.port, b.port)
    ensures View(u) == if ok then Unlinked(old(View(u)), a.port, b.port) else old(View(u))
  {
    hide Rewired, Anchored, CanUnlink, Unlinked;
    if CanUnlink(View(u), a.port, b.port) {
      UnlinkRewired(g0, View(u), v, a.port, b.port);
    }
    ok := a.Unlink(b, u);
  }

  method AddEdge(u: Universe, a: Anchor, b: Anchor, ghost g0: Links, ghost v: Node) returns (ok: bool)
    requires Anchored(u) && Member(a, u) && Member(b, u) && a.port.IsOut() && b.port.IsIn()
    requires a.port.node != v && b.port.node != v && Adjacent(g0, a.port.node, v) && Adjacent(g0, v, b.port.node)
    requires Rewired(g0, View(u), v)
    modifies u.Values`peers
    ensures Anchored(u) && Rewired(g0, View(u), v)
    ensures ok == CanLink(old(View(u)), a.port, b.port)
    ensures View(u) == if ok then Linked(old(View(u)), a.port, b.port) else old(View(u))
  {
    hide Rewired, Anchored, Linked, Adjacent;
    LinkRewired(g0, View(u), v, a.port, b.port);
    ok := a.LinkTo(b, u);
  }

  lemma {:induction false} FilterMultiset(s: seq<Port>)
    requires forall q :: q in s ==> q.IsIn()
    ensures multiset(InDataOf(s)) + multiset(InCtrlOf(s)) == multiset(s)
    ensures forall q :: q in InDataOf(s) ==> q.InData?
    ensures forall q :: q in InCtrlOf(s) ==> q.InCtrl?
  {
    if s != [] {
      assert s == Front(s) + [Last(s)] && Last(s).IsIn();
      FilterMultiset(Front(s));
    }
  }

  lemma {:induction false} FilterPart(s: seq<Port>)
    ensures multiset(InDataOf(s)) <= multiset(s)
    ensures multiset(InCtrlOf(s)) <= multiset(s)
    ensures forall q :: q in InDataOf(s) ==> q.InData?
    ensures forall q :: q in InCtrlOf(s) ==> q.InCtrl?
  {
    if s != [] {
      FrontLast(s);
      FilterPart(Front(s));
    }
  }

  // ------------------------------------------------------ one out port of v

  // All peers of f were handed over to t (control peers only, when f is a
  // control output).
  ghost predicate HandedOver(g: Links, r: Links, f: Port, t: Port) {
    && f in g && t in g && r.Keys == g.Keys && CleanData(r) && r[f] == []
    && multiset(r[t]) == multiset(g[t]) + multiset(g[f])
    && (forall p {:trigger r[p]} :: p in g && p != f && p != t && p !in g[f] ==> r[p] == g[p])
    && (forall x {:trigger r[x]} :: x in g && x in g[f] && x.InData? ==> r[x] == [t])
  }

  // After the data peers are gone only control peers are left.
  lemma DataMoved(g: Links, m: Links, f: Port)
    requires WellLinked(g) && f in g && f in m && f.IsOut()
    requires multiset(m[f]) == multiset(g[f]) - multiset(InDataOf(g[f]))
    ensures InCtrlOf(m[f]) == m[f]
    ensures multiset(InDataOf(g[f])) + multiset(m[f]) == multiset(g[f])
    ensures forall x :: x in m[f] ==> x in g[f] && x.InCtrl?
    ensures forall x :: x in g[f] ==> x in InDataOf(g[f]) || x in m[f]
    ensures forall x :: x in InDataOf(g[f]) ==> x in g[f] && x.InData?
  {
    var s := g[f];
    FilterPart(s);
    FilterMultiset(s);
    assert multiset(m[f]) == multiset(InCtrlOf(s));
    forall x | x in m[f] ensures x in s && x.InCtrl? {
      assert x in multiset(m[f]) && x in multiset(InCtrlOf(s));
      assert x in multiset(s);
    }
    forall x | x in s ensures x in InDataOf(s) || x in m[f] {
      assert x in multiset(s);
      assert x in multiset(InDataOf(s)) || x in multiset(m[f]);
    }
    forall x | x in InDataOf(s) ensures x in s {
      assert x in multiset(InDataOf(s));
    }
    AllCtrl(m[f]);
  }

  lemma TwoMovesCount(g: Links, m: Links, r: Links, f: Port, t: Port, d: seq<Port>, c: seq<Port>)
    requires MovedAll(g, m, f, t, d) && MovedAll(m, r, f, t, c)
    requires multiset(d) + multiset(m[f]) == multiset(g[f]) && c == m[f]
    ensures r[f] == [] && multiset(r[t]) == multiset(g[t]) + multiset(g[f])
  {
    assert multiset(r[f]) == multiset{};
    assert |multiset(r[f])| == 0;
    assert multiset(r[t]) == multiset(g[t]) + multiset(d) + multiset(m[f]);
  }

  lemma TwoMovesKeys(g: Links, m: Links, r: Links, f: Port, t: Port, d: seq<Port>, c: seq<Port>)
    requires MovedAll(g, m, f, t, d) && MovedAll(m, r, f, t, c)
    ensures f in g && t in g && m.Keys == g.Keys && r.Keys == g.Keys && CleanData(r)
  {
  }

  lemma TwoMoves(g: Links, m: Links, r: Links, f: Port, t: Port)
    requires WellLinked(g) && f in g && f != t && f.IsOut() && t.IsOut()
    requires MovedAll(g, m, f, t, InDataOf(g[f])) && MovedAll(m, r, f, t, InCtrlOf(m[f]))
    ensures HandedOver(g, r, f, t)
  {
    DataMoved(g, m, f);
    hide WellLinked, InDataOf, InCtrlOf;
    TwoMovesCount(g, m, r, f, t, InDataOf(g[f]), InCtrlOf(m[f]));
    TwoMovesKeys(g, m, r, f, t, InDataOf(g[f]), InCtrlOf(m[f]));
    hide CleanData, MovedAll;
    forall p | p in g && p != f && p != t && p !in g[f] ensures r[p] == g[p] {
      MovedElse(g, m, f, t, InDataOf(g[f]), p);
      MovedElse(m, r, f, t, InCtrlOf(m[f]), p);
    }
    forall x | x in g && x in g[f] && x.InData? ensures r[x] == [t] {
      MovedFed(g, m, f, t, InDataOf(g[f]), x);
      MovedElse(m, r, f, t, InCtrlOf(m[f]), x);
    }
  }

  // Control outputs of a clean state have control peers only.
  lemma CleanCtrlOut(g: Links, f: Port)
    requires WellLinked(g) && CleanData(g) && f in g && f.OutCtrl?
    ensures forall x :: x in g[f] ==> x.InCtrl?
    ensures InCtrlOf(g[f]) == g[f] && InDataOf(g[f]) == []
  {
    forall x | x in g[f] ensures x.InCtrl? {
      PeersAgree(g, f, x);
      assert x.IsIn() && f in g[x];
    }
    AllCtrl(g[f]);
  }

  lemma {:induction false} AllCtrl(s: seq<Port>)
    requires forall x :: x in s ==> x.InCtrl?
    ensures InCtrlOf(s) == s && InDataOf(s) == []
  {
    if s != [] {
      assert s == Front(s) + [Last(s)] && Last(s) in s;
      AllCtrl(Front(s));
    }
  }

  lemma OneMove(g: Links, r: Links, f: Port, t: Port)
    requires WellLinked(g) && CleanData(g) && f in g && t in g && f.OutCtrl?
    requires MovedAll(g, r, f, t, InCtrlOf(g[f]))
    ensures HandedOver(g, r, f, t)
  {
    CleanCtrlOut(g, f);
    assert |multiset(r[f])| == 0;
  }

  method MoveData(u: Universe, f: Anchor, t: Anchor, ghost g0: Links, ghost v: Node) returns (ok: bool)
    requires Anchored(u) && Member(f, u) && Member(t, u)
    requires f.port.OutData? && t.port.OutData? && f.port.node == v != t.port.node
    requires Rewired(g0, View(u), v) && WellLinked(g0) && NoSelfEdge(g0, v) && Adjacent(g0, t.port.node, v)
    modifies u.Values`peers
    ensures Anchored(u) && Rewired(g0, View(u), v)
    ensures old(CleanData(View(u))) ==>
      ok && MovedAll(old(View(u)), View(u), f.port, t.port, InDataOf(old(View(u))[f.port]))
  {
    hide MovedAll, Rewired, NoSelfEdge, Adjacent, CleanData, Feedable;
    FilterPart(View(u)[f.port]);
    var peers := f.GetPeerInDataAnchors();
    FeedableData(t.port, PortsOf(peers));
    ok := MovePeers(u, f, t, peers, g0, v);
  }

  method MoveControl(u: Universe, f: Anchor, t: Anchor, ghost g0: Links, ghost v: Node) returns (ok: bool)
    requires Anchored(u) && Member(f, u) && Member(t, u)
    requires f.port.IsOut() && t.port.IsOut() && f.port.node == v != t.port.node
    requires Rewired(g0, View(u), v) && WellLinked(g0) && NoSelfEdge(g0, v) && Adjacent(g0, t.port.node, v)
    modifies u.Values`peers
    ensures Anchored(u) && Rewired(g0, View(u), v)
    ensures old(CleanData(View(u))) ==>
      ok && MovedAll(old(View(u)), View(u), f.port, t.port, InCtrlOf(old(View(u))[f.port]))
  {
    hide MovedAll, Rewired, NoSelfEdge, Adjacent, CleanData, Feedable;
    FilterPart(View(u)[f.port]);
    var peers := f.GetPeerInControlAnchors();
    FeedableCtrl(t.port, PortsOf(peers));
    ok := MovePeers(u, f, t, peers, g0, v);
  }

  method HandOver(u: Universe, f: Anchor, t: Anchor, ghost g0: Links, ghost v: Node) returns (ok: bool)
    requires Anchored(u) && Member(f, u) && Member(t, u)
    requires f.port.OutData? && t.port.OutData? && f.port.node == v != t.port.node
    requires Rewired(g0, View(u), v) && WellLinked(g0) && NoSelfEdge(g0, v) && Adjacent(g0, t.port.node, v)
    modifies u.Values`peers
    ensures Anchored(u) && Rewired(g0, View(u), v)
    ensures old(CleanData(View(u))) ==> ok && HandedOver(old(View(u)), View(u), f.port, t.port)
  {
    hide MovedAll, Rewired, NoSelfEdge, Adjacent, CleanData, HandedOver, Anchored, WellLinked;
    ghost var g := View(u);
    RewiredParts(g0, g, v);
    ok := MoveData(u, f, t, g0, v);
    if ok {
      ghost var m := View(u);
      ok := MoveControl(u, f, t, g0, v);
      if CleanData(g) {
        MovedClean(g, m, f.port, t.port, InDataOf(g[f.port]));
        TwoMoves(g, m, View(u), f.port, t.port);
      }
    }
  }

  lemma FeedableData(t: Port, xs: seq<Port>)
    requires t.OutData? && forall x :: x in xs ==> x.InData?
    ensures Feedable(t, xs)
  {
  }

  lemma FeedableCtrl(t: Port, xs: seq<Port>)
    requires forall x :: x in xs ==> x.InCtrl?
    ensures Feedable(t, xs)
  {
  }

  lemma MovedClean(g: Links, r: Links, f: Port, t: Port, xs: seq<Port>)
    requires MovedAll(g, r, f, t, xs)
    ensures CleanData(r)
  {
  }

  // ------------------------------------------------- all out ports of v

  // Every port of the state is a port of its node, with all its siblings.
  ghost predicate AllPorts(g: Links) {
    forall p {:trigger p in g} :: p in g ==> IsPort(p) && HasPorts(g, p.node)
  }

  // The anchor that inherits the peers of p when s becomes the source.
  function Heir(p: Port, s: Port): Port {
    if p.OutData? then s else OutCtrl(s.node)
  }

  // Outside v no edge is lost.
  ghost predicate OutGrow(g: Links, r: Links, v: Node) {
    forall a, x {:trigger Mult(r, a, x)} :: a in g && a in r && x in g && a.IsOut() && a.node != v && x.node != v ==>
      Mult(g, a, x) <= Mult(r, a, x)
  }

  // Every peer of the ports ps of g is a peer of their heir in r.
  ghost predicate Bridged(g: Links, r: Links, s: Port, ps: seq<Port>) {
    forall p, x {:trigger x in g[p]} :: p in g && p in ps && x in g[p] ==> Heir(p, s) in r && x in r[Heir(p, s)]
  }

  // The out ports ps of v have been handed over, their data peers to s.
  ghost predicate FedThrough(g: Links, r: Links, v: Node, s: Port, ps: seq<Port>) {
    && r.Keys == g.Keys && CleanData(r) && OutGrow(g, r, v) && Bridged(g, r, s, ps)
    && (forall p {:trigger r[p]} :: p in g && p.node == v ==> r[p] == if p in ps then [] else g[p])
    && (forall x {:trigger r[x]} :: x in g && x.InData? && x.node != v ==>
         r[x] == if g[x] != [] && g[x][0] in ps then [s] else g[x])
  }

  lemma FedNone(g: Links, v: Node, s: Port)
    requires CleanData(g)
    ensures FedThrough(g, g, v, s, [])
  {
  }

  lemma FedStep(g: Links, r: Links, e: Links, v: Node, s: Port, ps: seq<Port>, f: Port, t: Port)
    requires WellLinked(r) && FedThrough(g, r, v, s, ps) && HandedOver(r, e, f, t)
    requires f.IsOut() && f.node == v && f !in ps && t == Heir(f, s) && s.OutData? && s.node != v
    requires forall x :: x in r[f] ==> x in r && x.node != v
    ensures FedThrough(g, e, v, s, ps + [f])
  {
    FedStepGrow(g, r, e, v, s, ps, f, t);
    forall p | p in g && p.node == v ensures e[p] == if p in ps + [f] then [] else g[p] {
      if p != f {
        assert e[p] == r[p];
      }
    }
    forall x | x in g && x.InData? && x.node != v
      ensures e[x] == if g[x] != [] && g[x][0] in ps + [f] then [s] else g[x]
    {
      FedStepAt(g, r, e, v, s, ps, f, t, x);
    }
  }

  lemma FedStepGrow(g: Links, r: Links, e: Links, v: Node, s: Port, ps: seq<Port>, f: Port, t: Port)
    requires WellLinked(r) && FedThrough(g, r, v, s, ps) && HandedOver(r, e, f, t)
    requires f.IsOut() && f.node == v && f !in ps && t == Heir(f, s) && s.OutData? && s.node != v
    ensures OutGrow(g, e, v) && Bridged(g, e, s, ps + [f])
  {
    forall a | a in g && a.IsOut() && a.node != v ensures multiset(r[a]) <= multiset(e[a]) {
      assert a !in r[f];
      assert a != t ==> e[a] == r[a];
    }
    forall a, x | a in g && x in g && a.IsOut() && a.node != v && x.node != v ensures Mult(g, a, x) <= Mult(e, a, x) {
      assert Mult(g, a, x) <= Mult(r, a, x);
      assert multiset(r[a]) <= multiset(e[a]);
    }
    forall p, x | p in g && p in ps + [f] && x in g[p] ensures Heir(p, s) in e && x in e[Heir(p, s)] {
      var h := Heir(p, s);
      if p == f {
        assert r[f] == g[f];
        assert x in multiset(e[t]);
      } else {
        assert h in r && x in r[h];
        assert x in multiset(r[h]);
        assert multiset(r[h]) <= multiset(e[h]);
        assert x in multiset(e[h]);
      }
    }
  }

  lemma FedStepAt(g: Links, r: Links, e: Links, v: Node, s: Port, ps: seq<Port>, f: Port, t: Port, x: Port)
    requires WellLinked(r) && FedThrough(g, r, v, s, ps) && HandedOver(r, e, f, t)
    requires f.IsOut() && f.node == v && f !in ps && t == Heir(f, s) && s.OutData? && s.node != v
    requires x in g && x.InData? && x.node != v
    ensures e[x] == if g[x] != [] && g[x][0] in ps + [f] then [s] else g[x]
  {
    assert |r[x]| <= 1;
    assert Mult(r, f, x) == Mult(r, x, f);
    if x in r[f] {
      assert f in r[x] && r[x] == [f];
      assert r[x][0].OutData?;
      assert g[x] == [f];
      assert e[x] == [t];
    } else {
      assert f !in r[x];
      assert e[x] == r[x];
      assert g[x] != [] ==> g[x][0] in g[x];
    }
  }

  // The result of one round over the outputs of v, with source s.
  ghost predicate AllFed(g: Links, r: Links, v: Node, s: Port) {
    && r.Keys == g.Keys && CleanData(r) && Refed(g, r, v, FeedFrom(s), true)
    && OutGrow(g, r, v) && Bridged(g, r, s, OutPorts(v))
    && (forall p {:trigger r[p]} :: p in g && p.node == v ==> r[p] == if p.IsOut() then [] else g[p])
  }

  lemma FedAll(g: Links, r: Links, v: Node, s: Port)
    requires WellLinked(g) && CleanData(g) && AllPorts(g) && FedThrough(g, r, v, s, OutPorts(v))
    ensures AllFed(g, r, v, s)
  {
    PortsOfNode(v);
    forall x | x in g && x.InData? && x.node != v ensures r[x] == Refeed(g, x, v, FeedFrom(s), true) {
      if g[x] != [] {
        assert g[x][0] in g[x];
        assert g[x][0] in g && IsPort(g[x][0]) && g[x][0].IsOut();
        assert g[x][0] in OutPorts(v) <==> g[x][0].node == v;
      }
    }
  }

  // Hands out port f of v over to t, in one step of the round.
  method FeedPort(u: Universe, f: Anchor, t: Anchor, ghost g0: Links, ghost v: Node,
                  ghost g: Links, ghost s: Port, ghost ps: seq<Port>, ghost clean: bool) returns (ok: bool)
    requires Anchored(u) && Member(f, u) && Member(t, u)
    requires f.port.IsOut() && f.port.node == v != t.port.node && s.node != v && f.port !in ps
    requires t.port == Heir(f.port, s) && s.OutData?
    requires Rewired(g0, View(u), v) && WellLinked(g0) && NoSelfEdge(g0, v) && Adjacent(g0, t.port.node, v)
    requires clean ==> FedThrough(g, View(u), v, s, ps)
    modifies u.Values`peers
    ensures Anchored(u) && Rewired(g0, View(u), v)
    ensures clean ==> ok && FedThrough(g, View(u), v, s, ps + [f.port])
  {
    ghost var r := View(u);
    assert clean ==> CleanData(r);
    assert f.port in r && t.port in r;
    hide *;
    RewiredParts(g0, r, v);
    OwnedPeers(g0, r, v, f.port);
    if f.port.OutData? {
      ok := HandOver(u, f, t, g0, v);
    } else {
      ok := MoveControl(u, f, t, g0, v);
      if clean {
        OneMove(r, View(u), f.port, t.port);
      }
    }
    if clean {
      FedStep(g, r, View(u), v, s, ps, f.port, t.port);
    }
  }

  lemma OwnedPeers(g0: Links, g: Links, v: Node, f: Port)
    requires Rewired(g0, g, v) && WellLinked(g0) && NoSelfEdge(g0, v) && f in g && f.IsOut() && f.node == v
    ensures forall x :: x in g[f] ==> x in g && x.node != v
  {
    forall x | x in g[f] ensures x in g && x.node != v {
      OwnedPeer(g0, g, v, f, x);
    }
  }

  // The ports IsolateNode reaches for are there.
  lemma PortAt(g0: Links, g: Links, p: Port)
    requires AllPorts(g0) && g.Keys == g0.Keys && IsPort(p) && exists q :: q in g0 && q.node == p.node
    ensures p in g
  {
    var q :| q in g0 && q.node == p.node;
    OwnPort(g0, p.node, p);
  }

  lemma DataOutPortsFresh(v: Node, k: nat)
    ensures OutData(v, k) !in DataOutPorts(v, k) && OutCtrl(v) !in DataOutPorts(v, k)
  {
    DataOutPortsBelow(v, k);
  }

  lemma {:induction false} DataOutPortsBelow(v: Node, k: nat)
    ensures forall p :: p in DataOutPorts(v, k) ==> p.OutData? && p.idx < k
  {
    if k > 0 {
      DataOutPortsBelow(v, k - 1);
    }
  }

  // The data outputs of v.
  method FeedOutputs(u: Universe, v: Node, pre: Anchor, ghost g0: Links, ghost g: Links, ghost clean: bool)
      returns (ok: bool)
    requires Anchored(u) && Member(pre, u) && AllPorts(g0) && u.Keys == g0.Keys && InCtrl(v) in g0
    requires pre.port.OutData? && pre.port.node != v
    requires Rewired(g0, View(u), v) && WellLinked(g0) && NoSelfEdge(g0, v) && Adjacent(g0, pre.port.node, v)
    requires clean ==> FedThrough(g, View(u), v, pre.port, [])
    modifies u.Values`peers
    ensures Anchored(u) && Rewired(g0, View(u), v)
    ensures clean ==> ok && FedThrough(g, View(u), v, pre.port, DataOutPorts(v, v.outputs))
  {
    hide Rewired, NoSelfEdge, Adjacent, FedThrough, Anchored, View, AllPorts, WellLinked;
    ok := true;
    var k := 0;
    while ok && k < v.outputs
      invariant Anchored(u) && Rewired(g0, View(u), v) && k <= v.outputs
      invariant clean ==> ok && FedThrough(g, View(u), v, pre.port, DataOutPorts(v, k))
    {
      PortAt(g0, g0, OutData(v, k));
      DataOutPortsFresh(v, k);
      AnchorAt(u, OutData(v, k));
      ok := FeedPort(u, u[OutData(v, k)], pre, g0, v, g, pre.port, DataOutPorts(v, k), clean);
      k := k + 1;
    }
  }

  lemma AnchorAt(u: Universe, p: Port)
    requires Anchored(u) && p in u
    ensures u[p].port == p && Member(u[p], u)
  {
  }

  // One round of IsolateNode: everything v feeds is fed by pre instead.
  method FeedRound(u: Universe, v: Node, pre: Anchor, ghost g0: Links) returns (ok: bool)
    requires Anchored(u) && Member(pre, u) && AllPorts(g0) && u.Keys == g0.Keys && InCtrl(v) in g0
    requires pre.port.OutData? && pre.port.node != v
    requires Rewired(g0, View(u), v) && WellLinked(g0) && NoSelfEdge(g0, v) && Adjacent(g0, pre.port.node, v)
    modifies u.Values`peers
    ensures Anchored(u) && Rewired(g0, View(u), v)
    ensures old(CleanData(View(u))) ==> ok && AllFed(old(View(u)), View(u), v, pre.port)
  {
    ghost var g := View(u);
    ghost var clean := CleanData(g);
    hide Rewired, NoSelfEdge, Adjacent, CleanData, FedThrough, Anchored, View, AllPorts, AllFed, WellLinked;
    RewiredParts(g0, g, v);
    if clean {
      FedNone(g, v, pre.port);
    }
    ok := FeedOutputs(u, v, pre, g0, g, clean);
    if ok {
      PortAt(g0, g0, OutCtrl(v));
      PortAt(g0, g0, OutCtrl(pre.port.node));
      AnchorAt(u, OutCtrl(v));
      AnchorAt(u, OutCtrl(pre.port.node));
      DataOutPortsFresh(v, v.outputs);
      ok := FeedPort(u, u[OutCtrl(v)], u[OutCtrl(pre.port.node)], g0, v, g, pre.port, DataOutPorts(v, v.outputs),
        clean);
      OutPortsAre(v);
      if clean {
        SamePorts(g0, g);
        FedAll(g, View(u), v, pre.port);
      }
    }
  }

  lemma SamePorts(g0: Links, g: Links)
    requires AllPorts(g0) && g.Keys == g0.Keys
    ensures AllPorts(g)
  {
  }

  // ------------------------------------------------------- the data inputs

  // What v feeds belongs to other nodes.
  ghost predicate OutsAway(g: Links, v: Node) {
    forall p, x {:trigger x in g[p]} :: p in g && p in OutPorts(v) && x in g[p] ==> x in g && x.node != v
  }

  lemma NoSelfOutsAway(g: Links, v: Node)
    requires WellLinked(g) && NoSelfEdge(g, v)
    ensures OutsAway(g, v)
  {
    PortsOfNode(v);
    RewiredSelf(g, v);
    forall p, x | p in g && p in OutPorts(v) && x in g[p] ensures x in g && x.node != v {
      OwnedPeer(g, g, v, p, x);
    }
  }

  // k data inputs of v are cut off, its consumers fed from feed, if any.
  ghost predicate InputsState(g0: Links, r: Links, v: Node, k: nat, feed: Feed) {
    && r.Keys == g0.Keys && CleanData(r) && Refed(g0, r, v, feed, true)
    && OutGrow(g0, r, v) && (feed.FeedFrom? ==> Bridged(g0, r, feed.source, OutPorts(v)))
    && (forall p {:trigger r[p]} :: p in g0 && p.node == v ==> r[p] == AfterInputs(g0, p, k, feed))
  }

  function AfterInputs(g0: Links, p: Port, k: nat, feed: Feed): seq<Port> {
    if (p.InData? && p.idx < k) || (p.IsOut() && feed.FeedFrom?) then [] else At(g0, p)
  }

  lemma InputsNone(g0: Links, v: Node)
    requires CleanData(g0)
    ensures InputsState(g0, g0, v, 0, NoFeed)
  {
  }

  lemma SourceAdjacent(g0: Links, g: Links, v: Node, i: nat, p: Port)
    requires Rewired(g0, g, v) && WellLinked(g0) && NoSelfEdge(g0, v)
    requires InData(v, i) in g && p in g[InData(v, i)]
    ensures p in g && p.IsOut() && p.node != v && Adjacent(g0, p.node, v) && CanUnlink(g, p, InData(v, i))
  {
    PeersAgree(g, InData(v, i), p);
    assert Mult(g, p, InData(v, i)) > 0;
    assert Intact(g0, g, v, p, InData(v, i));
    assert InData(v, i) in g0[p];
  }

  lemma {:induction false} FeedNotSelf(g0: Links, v: Node, k: nat)
    requires WellLinked(g0) && NoSelfEdge(g0, v)
    ensures FeedUpTo(g0, v, k).FeedFrom? ==> FeedUpTo(g0, v, k).source.OutData? && FeedUpTo(g0, v, k).source.node != v
  {
    if k > 0 {
      FeedNotSelf(g0, v, k - 1);
      if SourceOf(g0, v, k - 1).FeedFrom? {
        RewiredSelf(g0, v);
        SourceAdjacent(g0, g0, v, k - 1, SourceOf(g0, v, k - 1).source);
      }
    }
  }

  lemma HeadIsData(g: Links, q: Port)
    requires CleanData(g) && q in g && q.InData?
    ensures g[q] == [] || g[q][0].OutData?
  {
    assert g[q] != [] ==> g[q][0] in g[q];
  }

  // Growth is transitive, and so is what has been bridged.
  lemma GrowOn(g: Links, r: Links, e: Links, v: Node)
    requires r.Keys == g.Keys && OutGrow(g, r, v) && OutGrow(r, e, v) && e.Keys == g.Keys
    ensures OutGrow(g, e, v)
  {
    forall a, x | a in g && x in g && a.IsOut() && a.node != v && x.node != v ensures Mult(g, a, x) <= Mult(e, a, x) {
      assert Mult(r, a, x) <= Mult(e, a, x);
      assert Mult(g, a, x) <= Mult(r, a, x);
    }
  }

  lemma BridgedOn(g: Links, r: Links, e: Links, v: Node, s: Port, ps: seq<Port>)
    requires Bridged(g, r, s, ps) && OutGrow(r, e, v) && r.Keys == g.Keys && e.Keys == g.Keys
    requires s.OutData? && s.node != v
    requires forall p, x {:trigger x in g[p]} :: p in g && p in ps && x in g[p] ==> x in g && x.node != v
    ensures Bridged(g, e, s, ps)
  {
    forall p, x | p in g && p in ps && x in g[p] ensures Heir(p, s) in e && x in e[Heir(p, s)] {
      assert x in r[Heir(p, s)];
      assert Mult(r, Heir(p, s), x) > 0;
      assert Mult(r, Heir(p, s), x) <= Mult(e, Heir(p, s), x);
    }
  }

  lemma CutGrows(r: Links, v: Node, p: Port, q: Port)
    requires p in r && q in r && q.node == v && q.IsIn() && p.IsOut() && CanUnlink(r, p, q)
    ensures OutGrow(r, Unlinked(r, p, q), v)
  {
    UnlinkedCounts(r, p, q);
  }

  // Input k has no peer.
  lemma InputSkipped(g0: Links, r: Links, v: Node, k: nat, feed: Feed)
    requires CleanData(g0) && InputsState(g0, r, v, k, feed) && InData(v, k) in r
    requires r[InData(v, k)] == [] || !r[InData(v, k)][0].OutData?
    ensures InputsState(g0, r, v, k + 1, feed) && SourceOf(g0, v, k) == NoFeed
  {
    var q := InData(v, k);
    assert r[q] == AfterInputs(g0, q, k, feed) == g0[q];
    HeadIsData(g0, q);
    forall p | p in g0 && p.node == v ensures r[p] == AfterInputs(g0, p, k + 1, feed) {
      assert r[p] == AfterInputs(g0, p, k, feed);
    }
  }

  // The edge into data input k is removed.
  lemma InputCut(g0: Links, r: Links, v: Node, k: nat, feed: Feed, p: Port)
    requires WellLinked(r) && InputsState(g0, r, v, k, feed) && InData(v, k) in r && r[InData(v, k)] != []
    requires p == r[InData(v, k)][0] && p.node != v && OutsAway(g0, v)
    requires feed.FeedFrom? ==> feed.source.OutData? && feed.source.node != v
    ensures SourceOf(g0, v, k) == FeedFrom(p) && p in r && CanUnlink(r, p, InData(v, k))
    ensures InputsState(g0, Unlinked(r, p, InData(v, k)), v, k + 1, feed)
  {
    var q := InData(v, k);
    assert r[q] == AfterInputs(g0, q, k, feed);
    assert p in r[q] && p.OutData?;
    PeersAgree(r, q, p);
    UnlinkClean(r, p, q);
    var e := Unlinked(r, p, q);
    CutGrows(r, v, p, q);
    GrowOn(g0, r, e, v);
    if feed.FeedFrom? {
      BridgedOn(g0, r, e, v, feed.source, OutPorts(v));
    }
    forall x | x in g0 && x.node == v ensures e[x] == AfterInputs(g0, x, k + 1, feed) {
      assert r[x] == AfterInputs(g0, x, k, feed);
    }
    forall x | x in g0 && x.InData? && x.node != v ensures x in e && e[x] == Refeed(g0, x, v, feed, true) {
      assert e[x] == r[x];
    }
  }

  // The first round bridges what v fed at the start.
  lemma FirstBridge(g0: Links, e: Links, r: Links, v: Node, k: nat, p: Port)
    requires InputsState(g0, e, v, k, NoFeed) && AllFed(e, r, v, p)
    ensures Bridged(g0, r, p, OutPorts(v))
  {
    PortsOfNode(v);
    forall q, x | q in g0 && q in OutPorts(v) && x in g0[q] ensures Heir(q, p) in r && x in r[Heir(q, p)] {
      assert e[q] == AfterInputs(g0, q, k, NoFeed) == g0[q];
    }
  }

  // A round after the cut makes p the source, unless there is one already.
  lemma InputFed(g0: Links, e: Links, r: Links, v: Node, k: nat, feed: Feed, p: Port)
    requires InputsState(g0, e, v, k, feed) && AllFed(e, r, v, p)
    requires feed.FeedFrom? ==> feed.source.OutData? && feed.source.node != v
    requires OutsAway(g0, v)
    ensures InputsState(g0, r, v, k, if feed.FeedFrom? then feed else FeedFrom(p))
  {
    var f := if feed.FeedFrom? then feed else FeedFrom(p);
    GrowOn(g0, e, r, v);
    if feed.FeedFrom? {
      BridgedOn(g0, e, r, v, feed.source, OutPorts(v));
    } else {
      FirstBridge(g0, e, r, v, k, p);
    }
    forall x | x in g0 && x.node == v ensures r[x] == AfterInputs(g0, x, k, f) {
      assert e[x] == AfterInputs(g0, x, k, feed);
    }
    forall x | x in g0 && x.InData? && x.node != v ensures x in r && r[x] == Refeed(g0, x, v, f, true) {
      assert e[x] == Refeed(g0, x, v, feed, true);
      assert r[x] == Refeed(e, x, v, FeedFrom(p), true);
    }
  }

  lemma InputsClean(g0: Links, r: Links, v: Node, k: nat, feed: Feed)
    requires InputsState(g0, r, v, k, feed)
    ensures CleanData(r)
  {
  }

  // RemoveEdge(pre, input).
  method CutEdge(u: Universe, v: Node, k: nat, pre: Anchor, input: Anchor, ghost g0: Links) returns (ok: bool)
    requires Anchored(u) && Member(pre, u) && Member(input, u) && input.port == InData(v, k)
    requires View(u)[input.port] != [] && View(u)[input.port][0] == pre.port && pre.port.OutData?
    requires Rewired(g0, View(u), v) && WellLinked(g0) && NoSelfEdge(g0, v)
    requires CleanData(g0) ==> InputsState(g0, View(u), v, k, FeedUpTo(g0, v, k))
    modifies u.Values`peers
    ensures Anchored(u) && Rewired(g0, View(u), v)
    ensures pre.port.node != v && Adjacent(g0, pre.port.node, v)
    ensures CleanData(g0) ==>
      ok && SourceOf(g0, v, k) == FeedFrom(pre.port) && InputsState(g0, View(u), v, k + 1, FeedUpTo(g0, v, k))
  {
    ghost var r := View(u);
    assert InData(v, k) in r && pre.port in r[InData(v, k)];
    hide Rewired, NoSelfEdge, Adjacent, CleanData, Anchored, WellLinked, InputsState, SourceOf, CanUnlink, View,
      FeedUpTo;
    SourceAdjacent(g0, r, v, k, pre.port);
    RewiredParts(g0, r, v);
    if CleanData(g0) {
      FeedNotSelf(g0, v, k);
      NoSelfOutsAway(g0, v);
      InputCut(g0, r, v, k, FeedUpTo(g0, v, k), pre.port);
    }
    ok := RemoveEdge(u, pre, input, g0, v);
  }

  // The round that follows the cut of a non-constant source.
  method FeedAfterCut(u: Universe, v: Node, k: nat, pre: Anchor, ghost g0: Links) returns (ok: bool)
    requires Anchored(u) && Member(pre, u) && AllPorts(g0) && u.Keys == g0.Keys && InCtrl(v) in g0
    requires pre.port.OutData? && pre.port.node != v && Adjacent(g0, pre.port.node, v)
    requires Rewired(g0, View(u), v) && WellLinked(g0) && NoSelfEdge(g0, v)
    requires CleanData(g0) ==>
      SourceOf(g0, v, k) == FeedFrom(pre.port) && !IsConstant(pre.port.node) &&
      InputsState(g0, View(u), v, k + 1, FeedUpTo(g0, v, k))
    modifies u.Values`peers
    ensures Anchored(u) && Rewired(g0, View(u), v)
    ensures CleanData(g0) ==> ok && InputsState(g0, View(u), v, k + 1, FeedUpTo(g0, v, k + 1))
  {
    ghost var e, feed := View(u), FeedUpTo(g0, v, k);
    hide Rewired, NoSelfEdge, Adjacent, CleanData, Anchored, WellLinked, InputsState, SourceOf, View, AllFed, AllPorts;
    if CleanData(g0) {
      InputsClean(g0, e, v, k + 1, feed);
      FeedNotSelf(g0, v, k);
      NoSelfOutsAway(g0, v);
    }
    ok := FeedRound(u, v, pre, g0);
    if CleanData(g0) {
      InputFed(g0, e, View(u), v, k + 1, feed, pre.port);
    }
  }

  method CutInput(u: Universe, v: Node, k: nat, ghost g0: Links) returns (ok: bool)
    requires Anchored(u) && AllPorts(g0) && u.Keys == g0.Keys && InCtrl(v) in g0 && InData(v, k) in g0
    requires Rewired(g0, View(u), v) && WellLinked(g0) && NoSelfEdge(g0, v)
    requires CleanData(g0) ==> InputsState(g0, View(u), v, k, FeedUpTo(g0, v, k))
    modifies u.Values`peers
    ensures Anchored(u) && Rewired(g0, View(u), v)
    ensures CleanData(g0) ==> ok && InputsState(g0, View(u), v, k + 1, FeedUpTo(g0, v, k + 1))
  {
    var input := u[InData(v, k)];
    ghost var r := View(u);
    AnchorAt(u, InData(v, k));
    assert r[InData(v, k)] == PortsOf(input.peers);
    if input.peers == [] || !input.peers[0].port.OutData? {
      if CleanData(g0) {
        InputSkipped(g0, r, v, k, FeedUpTo(g0, v, k));
      }
      return true;
    }
    var pre := input.peers[0];
    assert pre.port == r[InData(v, k)][0] && Member(pre, u);
    hide Rewired, NoSelfEdge, Adjacent, CleanData, Anchored, View, AllPorts, WellLinked, InputsState, SourceOf;
    ok := CutEdge(u, v, k, pre, input, g0);
    if ok && !IsConstant(pre.port.node) {
      ok := FeedAfterCut(u, v, k, pre, g0);
    }
  }

  // The loop over the data inputs.
  method CutInputs(u: Universe, v: Node, ghost g0: Links) returns (ok: bool)
    requires Anchored(u) && AllPorts(g0) && u.Keys == g0.Keys && InCtrl(v) in g0 && View(u) == g0
    requires WellLinked(g0) && NoSelfEdge(g0, v)
    modifies u.Values`peers
    ensures Anchored(u) && Rewired(g0, View(u), v)
    ensures CleanData(g0) ==> ok && InputsState(g0, View(u), v, v.inputs, FeedUpTo(g0, v, v.inputs))
  {
    hide Rewired, NoSelfEdge, CleanData, Anchored, View, AllPorts, WellLinked, InputsState;
    RewiredSelf(g0, v);
    if CleanData(g0) {
      InputsNone(g0, v);
    }
    ok := true;
    var k := 0;
    while ok && k < v.inputs
      invariant Anchored(u) && Rewired(g0, View(u), v) && k <= v.inputs
      invariant CleanData(g0) ==> ok && InputsState(g0, View(u), v, k, FeedUpTo(g0, v, k))
    {
      PortAt(g0, g0, InData(v, k));
      ok := CutInput(u, v, k, g0);
      k := k + 1;
    }
  }
}
