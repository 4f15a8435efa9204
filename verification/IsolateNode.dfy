// IsolateNode, the control inputs and the operation as a whole.
module IsolateNodes {
  import opened Links
  import opened Anchors
  import opened Degrees
  import opened Targets
  import opened Rewiring
  import opened Moving
  import opened Isolation
  import opened Dropping

  // No data input changes, and v's control input does not either.
  ghost predicate SameInputs(g: Links, r: Links, v: Node) {
    && r.Keys == g.Keys && CleanData(r) && OutGrow(g, r, v) && InCtrl(v) in g && r[InCtrl(v)] == g[InCtrl(v)]
    && (forall x {:trigger r[x]} :: x in g && x.InData? ==> r[x] == g[x])
  }

  lemma SameSelf(g: Links, v: Node)
    requires CleanData(g) && InCtrl(v) in g
    ensures SameInputs(g, g, v)
  {
  }

  lemma SameOn(g: Links, r: Links, e: Links, v: Node)
    requires SameInputs(g, r, v) && SameInputs(r, e, v)
    ensures SameInputs(g, e, v)
  {
    GrowOn(g, r, e, v);
  }

  // c has inherited the control peers of the ports ps of g.
  ghost predicate ControlBridged(g: Links, r: Links, c: Port, ps: seq<Port>) {
    forall p, x {:trigger x in g[p]} :: p in g && p in ps && x in g[p] && x.InCtrl? ==> c in r && x in r[c]
  }

  lemma ControlBridgedOn(g: Links, r: Links, e: Links, v: Node, c: Port, ps: seq<Port>)
    requires ControlBridged(g, r, c, ps) && OutGrow(r, e, v) && r.Keys == g.Keys && e.Keys == g.Keys
    requires c.IsOut() && c.node != v
    requires forall p, x {:trigger x in g[p]} :: p in g && p in ps && x in g[p] ==> x in g && x.node != v
    ensures ControlBridged(g, e, c, ps)
  {
    forall p, x | p in g && p in ps && x in g[p] && x.InCtrl? ensures c in e && x in e[c] {
      assert x in r[c];
      assert Mult(r, c, x) > 0;
      assert Mult(r, c, x) <= Mult(e, c, x);
    }
  }

  lemma ControlPart(s: seq<Port>)
    ensures forall x :: x in InCtrlOf(s) ==> x in s && x.InCtrl?
    ensures forall x :: x in s && x.InCtrl? ==> x in InCtrlOf(s)
  {
    FilterPart(s);
    forall x | x in InCtrlOf(s) ensures x in s {
      assert x in multiset(InCtrlOf(s));
    }
    forall x | x in s && x.InCtrl? ensures x in InCtrlOf(s) {
      CtrlIsKept(s, x);
    }
  }

  lemma MovedGrows(g: Links, r: Links, v: Node, f: Port, c: Port, xs: seq<Port>)
    requires MovedAll(g, r, f, c, xs) && f.node == v && forall x :: x in xs ==> x.IsIn()
    ensures OutGrow(g, r, v) && CleanData(r) && r.Keys == g.Keys && c in r
    ensures forall x :: x in xs ==> x in r[c]
  {
    forall x | x in xs ensures x in r[c] {
      assert x in multiset(r[c]);
    }
    hide CleanData;
    forall a, x | a in g && x in g && a.IsOut() && a.node != v && x.node != v ensures Mult(g, a, x) <= Mult(r, a, x) {
      if a != c {
        MovedElse(g, r, f, c, xs, a);
      }
    }
  }

  // Moving control peers of one out port of v to c.
  lemma ControlMoved(g: Links, r: Links, v: Node, f: Port, c: Port)
    requires f in g && MovedAll(g, r, f, c, InCtrlOf(g[f])) && f.IsOut() && f.node == v && c.IsOut() && c.node != v
    requires InCtrl(v) in g && forall x :: x in g[f] ==> x.node != v
    ensures SameInputs(g, r, v)
    ensures forall x :: x in g[f] && x.InCtrl? ==> c in r && x in r[c]
    ensures forall p :: p in g && p.node == v && p != f ==> p in r && r[p] == g[p]
  {
    ControlPart(g[f]);
    MovedGrows(g, r, v, f, c, InCtrlOf(g[f]));
    hide MovedAll, CleanData, InCtrlOf, OutGrow;
    forall x | x in g && x.InData? ensures r[x] == g[x] {
      MovedElse(g, r, f, c, InCtrlOf(g[f]), x);
    }
    assert f in g && forall x :: x in InCtrlOf(g[f]) ==> x.node != v;
    forall p | p in g && p.node == v && p != f ensures p in r && r[p] == g[p] {
      MovedElse(g, r, f, c, InCtrlOf(g[f]), p);
    }
  }

  lemma {:induction false} CtrlIsKept(s: seq<Port>, x: Port)
    requires x in s && x.InCtrl?
    ensures x in InCtrlOf(s)
  {
    FrontLast(s);
    if x in Front(s) {
      CtrlIsKept(Front(s), x);
    }
  }

  // v's control consumers of the ports ps now follow c.
  ghost predicate Forwarded(g: Links, r: Links, v: Node, c: Port, ps: seq<Port>) {
    && SameInputs(g, r, v) && ControlBridged(g, r, c, ps)
    && (forall p {:trigger r[p]} :: p in g && p.node == v && p !in ps ==> r[p] == g[p])
  }

  lemma ForwardStart(g: Links, v: Node, c: Port)
    requires CleanData(g) && InCtrl(v) in g
    ensures Forwarded(g, g, v, c, [])
  {
  }

  lemma ForwardStep(g: Links, r: Links, e: Links, v: Node, c: Port, ps: seq<Port>, f: Port)
    requires f in r && Forwarded(g, r, v, c, ps) && MovedAll(r, e, f, c, InCtrlOf(r[f]))
    requires f.IsOut() && f.node == v && f !in ps && c.IsOut() && c.node != v
    requires forall x :: x in r[f] ==> x.node != v
    requires forall p, x {:trigger x in g[p]} :: p in g && p in ps && x in g[p] ==> x in g && x.node != v
    ensures Forwarded(g, e, v, c, ps + [f])
  {
    ControlMoved(r, e, v, f, c);
    SameOn(g, r, e, v);
    ControlBridgedOn(g, r, e, v, c, ps);
    assert r[f] == g[f];
  }

  method ForwardPort(u: Universe, f: Anchor, c: Anchor, ghost g0: Links, ghost v: Node,
                     ghost g: Links, ghost ps: seq<Port>, ghost clean: bool) returns (ok: bool)
    requires Anchored(u) && Member(f, u) && Member(c, u)
    requires f.port.IsOut() && c.port.IsOut() && f.port.node == v != c.port.node && f.port !in ps
    requires Rewired(g0, View(u), v) && WellLinked(g0) && NoSelfEdge(g0, v) && Adjacent(g0, c.port.node, v)
    requires clean ==> Forwarded(g, View(u), v, c.port, ps)
    requires forall p, x {:trigger x in g[p]} :: p in g && p in ps && x in g[p] ==> x in g && x.node != v
    modifies u.Values`peers
    ensures Anchored(u) && Rewired(g0, View(u), v)
    ensures clean ==> ok && Forwarded(g, View(u), v, c.port, ps + [f.port])
  {
    ghost var r := View(u);
    assert f.port in r && c.port in r;
    assert clean ==> CleanData(r);
    hide *;
    OwnedPeers(g0, r, v, f.port);
    ok := MoveControl(u, f, c, g0, v);
    if clean {
      ForwardStep(g, r, View(u), v, c.port, ps, f.port);
    }
  }

  lemma {:induction false} DataOutPortsAway(g: Links, v: Node, k: nat)
    requires OutsAway(g, v) && k <= v.outputs
    ensures forall p, x {:trigger x in g[p]} :: p in g && p in DataOutPorts(v, k) && x in g[p] ==> x in g && x.node != v
  {
    DataOutPortsAre(v, k);
  }

  // Every control consumer of v now waits for c.
  method ForwardControl(u: Universe, v: Node, c: Anchor, ghost g0: Links) returns (ok: bool)
    requires Anchored(u) && Member(c, u) && AllPorts(g0) && u.Keys == g0.Keys && InCtrl(v) in g0
    requires c.port.IsOut() && c.port.node != v
    requires Rewired(g0, View(u), v) && WellLinked(g0) && NoSelfEdge(g0, v) && Adjacent(g0, c.port.node, v)
    modifies u.Values`peers
    ensures Anchored(u) && Rewired(g0, View(u), v)
    ensures old(CleanData(View(u))) ==>
      ok && SameInputs(old(View(u)), View(u), v) && ControlBridged(old(View(u)), View(u), c.port, OutPorts(v))
  {
    hide Rewired, NoSelfEdge, Adjacent, CleanData, Forwarded, Anchored, View, AllPorts, WellLinked, OutsAway,
      SameInputs, ControlBridged;
    ghost var g := View(u);
    ghost var clean := CleanData(g);
    OutsAwayNow(g0, g, v);
    RewiredParts(g0, g, v);
    if clean {
      ForwardStart(g, v, c.port);
    }
    ok := true;
    var k := 0;
    while ok && k < v.outputs
      invariant Anchored(u) && Rewired(g0, View(u), v) && k <= v.outputs
      invariant clean ==> ok && Forwarded(g, View(u), v, c.port, DataOutPorts(v, k))
    {
      PortAt(g0, g0, OutData(v, k));
      DataOutPortsFresh(v, k);
      DataOutPortsAway(g, v, k);
      AnchorAt(u, OutData(v, k));
      ok := ForwardPort(u, u[OutData(v, k)], c, g0, v, g, DataOutPorts(v, k), clean);
      k := k + 1;
    }
    if ok {
      PortAt(g0, g0, OutCtrl(v));
      AnchorAt(u, OutCtrl(v));
      DataOutPortsFresh(v, k);
      DataOutPortsAway(g, v, k);
      ok := ForwardPort(u, u[OutCtrl(v)], c, g0, v, g, DataOutPorts(v, k), clean);
      OutPortsAre(v);
      if clean {
        ForwardEnd(g, View(u), v, c.port, OutPorts(v));
      }
    }
  }

  lemma ForwardEnd(g: Links, r: Links, v: Node, c: Port, ps: seq<Port>)
    requires Forwarded(g, r, v, c, ps)
    ensures SameInputs(g, r, v) && ControlBridged(g, r, c, ps)
  {
  }

  lemma OutsAwayNow(g0: Links, g: Links, v: Node)
    requires Rewired(g0, g, v) && WellLinked(g0) && NoSelfEdge(g0, v)
    ensures OutsAway(g, v)
  {
    PortsOfNode(v);
    forall p, x | p in g && p in OutPorts(v) && x in g[p] ensures x in g && x.node != v {
      OwnedPeer(g0, g, v, p, x);
    }
  }

  // ------------------------------------------------ control predecessors

  lemma InAdjacent(g0: Links, g: Links, v: Node, q: Port, p: Port)
    requires Rewired(g0, g, v) && WellLinked(g0) && NoSelfEdge(g0, v)
    requires q in g && q.IsIn() && q.node == v && p in g[q]
    ensures p in g && p.IsOut() && p.node != v && Adjacent(g0, p.node, v)
  {
    PeersAgree(g, q, p);
    assert Mult(g, p, q) > 0;
    assert Intact(g0, g, v, p, q);
    assert q in g0[p];
  }

  // The first k of the sources ps of v's control input are cut off.
  ghost predicate ControlsCut(g: Links, r: Links, v: Node, ps: seq<Port>, k: nat)
    requires k <= |ps|
  {
    && r.Keys == g.Keys && CleanData(r) && OutGrow(g, r, v) && InCtrl(v) in g
    && (forall x {:trigger r[x]} :: x in g && x.InData? ==> r[x] == g[x])
    && multiset(ps) <= multiset(g[InCtrl(v)])
    && multiset(r[InCtrl(v)]) == multiset(g[InCtrl(v)]) - multiset(ps[..k])
  }

  lemma CutStart(g: Links, v: Node, ps: seq<Port>)
    requires CleanData(g) && InCtrl(v) in g && multiset(ps) <= multiset(g[InCtrl(v)])
    ensures ControlsCut(g, g, v, ps, 0)
  {
  }

  lemma CutParts(g: Links, r: Links, v: Node, ps: seq<Port>, k: nat)
    requires k <= |ps| && ControlsCut(g, r, v, ps, k)
    ensures r.Keys == g.Keys && CleanData(r) && OutGrow(g, r, v)
  {
  }

  lemma CutOne(g: Links, r: Links, v: Node, ps: seq<Port>, k: nat)
    requires WellLinked(r) && k < |ps| && ControlsCut(g, r, v, ps, k)
    ensures var q := InCtrl(v);
      && q in r && ps[k] in r && CanUnlink(r, ps[k], q)
      && ControlsCut(g, Unlinked(r, ps[k], q), v, ps, k + 1)
      && OutGrow(r, Unlinked(r, ps[k], q), v)
      && (forall p :: p in r && p != ps[k] && p != q ==> Unlinked(r, ps[k], q)[p] == r[p])
  {
    var q := InCtrl(v);
    StillThere(g[q], r[q], ps, k);
    PeersAgree(r, q, ps[k]);
    assert ps[k].IsOut();
    RemoveFirstMultiset(r[q], ps[k]);
    UnlinkClean(r, ps[k], q);
    CutGrows(r, v, ps[k], q);
    GrowOn(g, r, Unlinked(r, ps[k], q), v);
  }

  lemma CutSame(g: Links, r: Links, e: Links, v: Node, ps: seq<Port>, k: nat)
    requires k <= |ps| && ControlsCut(g, r, v, ps, k) && SameInputs(r, e, v)
    ensures ControlsCut(g, e, v, ps, k)
  {
    GrowOn(g, r, e, v);
  }

  // One control predecessor: cut off, then put before v's control consumers.
  method ForwardOne(u: Universe, v: Node, pre: Anchor, ghost g0: Links, ghost g: Links, ghost ps: seq<Port>,
                    ghost k: nat, ghost clean: bool) returns (ok: bool)
    requires Anchored(u) && Member(pre, u) && AllPorts(g0) && u.Keys == g0.Keys && InCtrl(v) in g0
    requires pre.port.IsOut() && pre.port.node != v && Adjacent(g0, pre.port.node, v)
    requires Rewired(g0, View(u), v) && WellLinked(g0) && NoSelfEdge(g0, v)
    requires k < |ps| && pre.port == ps[k] && OutsAway(g, v)
    requires clean ==> ControlsCut(g, View(u), v, ps, k)
    requires clean && k == 0 ==> View(u) == g
    requires clean && k > 0 ==> ps[0].IsOut() && ps[0].node != v && ControlBridged(g, View(u), ps[0], OutPorts(v))
    modifies u.Values`peers
    ensures Anchored(u) && Rewired(g0, View(u), v)
    ensures clean ==> ok && ControlsCut(g, View(u), v, ps, k + 1) && ControlBridged(g, View(u), ps[0], OutPorts(v))
  {
    hide Rewired, NoSelfEdge, Adjacent, CleanData, Anchored, View, AllPorts, WellLinked, SameInputs, ControlBridged,
      ControlsCut, CanUnlink, OutGrow, OutsAway;
    ghost var r := View(u);
    RewiredParts(g0, r, v);
    if clean {
      CutOne(g, r, v, ps, k);
    }
    AnchorAt(u, InCtrl(v));
    ok := RemoveEdge(u, pre, u[InCtrl(v)], g0, v);
    if !ok {
      return;
    }
    ghost var e := View(u);
    if clean {
      CutParts(g, e, v, ps, k + 1);
    }
    ok := ForwardControl(u, v, pre, g0);
    if clean {
      ForwardOneEnd(g, r, e, View(u), v, ps, k);
    }
  }

  lemma ForwardOneEnd(g: Links, r: Links, e: Links, z: Links, v: Node, ps: seq<Port>, k: nat)
    requires k < |ps| && ControlsCut(g, r, v, ps, k) && ControlsCut(g, e, v, ps, k + 1) && OutsAway(g, v)
    requires OutGrow(r, e, v) && forall p :: p in r && p != ps[k] && p != InCtrl(v) ==> e[p] == r[p]
    requires SameInputs(e, z, v) && ControlBridged(e, z, ps[k], OutPorts(v)) && ps[k].node != v
    requires k == 0 ==> r == g
    requires k > 0 ==> ps[0].IsOut() && ps[0].node != v && ControlBridged(g, r, ps[0], OutPorts(v))
    ensures ControlsCut(g, z, v, ps, k + 1) && ControlBridged(g, z, ps[0], OutPorts(v))
  {
    CutParts(g, r, v, ps, k);
    CutParts(g, e, v, ps, k + 1);
    CutSame(g, e, z, v, ps, k + 1);
    SameParts(e, z, v);
    hide ControlsCut, SameInputs, ControlBridged, OutsAway, OutGrow, CleanData;
    if k == 0 {
      BridgedBefore(g, e, z, v, ps[0], ps[0]);
    } else {
      GrowOn(r, e, z, v);
      BridgeLasts(g, r, z, v, ps[0]);
    }
  }

  lemma SameParts(g: Links, r: Links, v: Node)
    requires SameInputs(g, r, v)
    ensures r.Keys == g.Keys && CleanData(r) && OutGrow(g, r, v)
  {
  }

  lemma BridgeLasts(g: Links, r: Links, e: Links, v: Node, c: Port)
    requires ControlBridged(g, r, c, OutPorts(v)) && OutGrow(r, e, v) && r.Keys == g.Keys && e.Keys == g.Keys
    requires c.IsOut() && c.node != v && OutsAway(g, v)
    ensures ControlBridged(g, e, c, OutPorts(v))
  {
    ControlBridgedOn(g, r, e, v, c, OutPorts(v));
  }

  // Cutting an edge into v leaves what v feeds as it was.
  lemma BridgedBefore(g: Links, e: Links, r: Links, v: Node, c: Port, cut: Port)
    requires ControlBridged(e, r, c, OutPorts(v)) && e.Keys == g.Keys && cut.node != v
    requires forall p :: p in g && p != cut && p != InCtrl(v) ==> e[p] == g[p]
    ensures ControlBridged(g, r, c, OutPorts(v))
  {
    PortsOfNode(v);
    forall p, x | p in g && p in OutPorts(v) && x in g[p] && x.InCtrl? ensures c in r && x in r[c] {
      assert e[p] == g[p];
    }
  }

  // All control predecessors of v, and the first of them in charge.
  ghost predicate ControlsForwarded(g: Links, r: Links, v: Node) {
    var ps := OutCtrlOf(At(g, InCtrl(v)));
    ControlsCut(g, r, v, ps, |ps|) && (ps != [] ==> ControlBridged(g, r, ps[0], OutPorts(v)))
  }

  method ControlLoop(u: Universe, v: Node, pres: seq<Anchor>, ghost g0: Links, ghost g: Links, ghost ps: seq<Port>,
                     ghost clean: bool) returns (ok: bool)
    requires Anchored(u) && AllPorts(g0) && u.Keys == g0.Keys && InCtrl(v) in g0
    requires Rewired(g0, View(u), v) && WellLinked(g0) && NoSelfEdge(g0, v) && OutsAway(g, v)
    requires |ps| == |pres| && forall i :: 0 <= i < |pres| ==> Member(pres[i], u) && ps[i] == pres[i].port
    requires forall i :: 0 <= i < |ps| ==> ps[i].IsOut() && ps[i].node != v && Adjacent(g0, ps[i].node, v)
    requires clean ==> View(u) == g && ControlsCut(g, g, v, ps, 0)
    modifies u.Values`peers
    ensures Anchored(u) && Rewired(g0, View(u), v)
    ensures clean ==> ok && ControlsCut(g, View(u), v, ps, |ps|)
    ensures clean && ps != [] ==> ControlBridged(g, View(u), ps[0], OutPorts(v))
  {
    hide Rewired, NoSelfEdge, Adjacent, Anchored, View, AllPorts, WellLinked, ControlBridged, ControlsCut, OutsAway;
    ok := true;
    var k := 0;
    while ok && k < |pres|
      invariant Anchored(u) && Rewired(g0, View(u), v) && k <= |pres|
      invariant clean ==> ok && ControlsCut(g, View(u), v, ps, k)
      invariant clean ==> if k == 0 then View(u) == g else ControlBridged(g, View(u), ps[0], OutPorts(v))
    {
      ok := ForwardOne(u, v, pres[k], g0, g, ps, k, clean);
      k := k + 1;
    }
  }

  lemma {:induction false} OutFilterPart(s: seq<Port>)
    ensures multiset(OutCtrlOf(s)) <= multiset(s) && multiset(OutDataOf(s)) <= multiset(s)
    ensures forall q :: q in OutCtrlOf(s) ==> q in s && q.OutCtrl?
    ensures forall q :: q in OutDataOf(s) ==> q in s && q.OutData?
    ensures forall q :: q in s && q.OutData? ==> q in OutDataOf(s)
  {
    OutFilterMembers(s);
    OutFilterCounts(s);
  }

  lemma {:induction false} OutFilterMembers(s: seq<Port>)
    ensures forall q :: q in OutCtrlOf(s) ==> q in s && q.OutCtrl?
    ensures forall q :: q in OutDataOf(s) ==> q in s && q.OutData?
    ensures forall q :: q in s && q.OutData? ==> q in OutDataOf(s)
  {
    if s != [] {
      FrontLast(s);
      OutFilterMembers(Front(s));
    }
  }

  lemma {:induction false} OutFilterCounts(s: seq<Port>)
    ensures multiset(OutCtrlOf(s)) <= multiset(s) && multiset(OutDataOf(s)) <= multiset(s)
  {
    if s != [] {
      FrontLast(s);
      OutFilterCounts(Front(s));
    }
  }

  method ForwardControls(u: Universe, v: Node, ghost g0: Links) returns (ok: bool)
    requires Anchored(u) && AllPorts(g0) && u.Keys == g0.Keys && InCtrl(v) in g0
    requires Rewired(g0, View(u), v) && WellLinked(g0) && NoSelfEdge(g0, v)
    modifies u.Values`peers
    ensures Anchored(u) && Rewired(g0, View(u), v)
    ensures old(CleanData(View(u))) ==> ok && ControlsForwarded(old(View(u)), View(u), v)
  {
    var input := u[InCtrl(v)];
    AnchorAt(u, InCtrl(v));
    var pres := input.GetPeerOutControlAnchors();
    ghost var g, ps := View(u), PortsOf(pres);
    assert ps == OutCtrlOf(g[InCtrl(v)]);
    PeersAreMembers(u, input, pres);
    OutFilterPart(g[InCtrl(v)]);
    forall i | 0 <= i < |ps| ensures ps[i].IsOut() && ps[i].node != v && Adjacent(g0, ps[i].node, v) {
      InAdjacent(g0, g, v, InCtrl(v), ps[i]);
    }
    OutsAwayNow(g0, g, v);
    hide Rewired, NoSelfEdge, Adjacent, Anchored, View, AllPorts, WellLinked, ControlBridged, ControlsCut, OutsAway,
      CleanData;
    if CleanData(g) {
      CutStart(g, v, ps);
    }
    ok := ControlLoop(u, v, pres, g0, g, ps, CleanData(g));
  }

  // ---------------------------------------------- data-to-control predecessors

  // q has become a control predecessor of the nodes ns.
  ghost predicate Precedes(r: Links, q: Port, ns: seq<Node>) {
    q in r && forall n :: n in ns ==> InCtrl(n) in r[q]
  }

  lemma PrecedesOn(r: Links, e: Links, v: Node, q: Port, ns: seq<Node>)
    requires Precedes(r, q, ns) && OutGrow(r, e, v) && e.Keys == r.Keys && q.IsOut() && q.node != v
    requires forall n :: n in ns ==> n != v && InCtrl(n) in r
    ensures Precedes(e, q, ns)
  {
    forall n | n in ns ensures InCtrl(n) in e[q] {
      assert Mult(r, q, InCtrl(n)) > 0;
      assert Mult(r, q, InCtrl(n)) <= Mult(e, q, InCtrl(n));
    }
  }

  lemma PrecedeOne(g: Links, r: Links, v: Node, q: Port, ns: seq<Node>, n: Node)
    requires SameInputs(g, r, v) && Precedes(r, q, ns) && q.OutData? && q.node != v
    requires n != v && InCtrl(n) in r
    ensures CanLink(r, q, InCtrl(n)) && SameInputs(g, Linked(r, q, InCtrl(n)), v)
    ensures Precedes(Linked(r, q, InCtrl(n)), q, ns + [n])
  {
    var e := Linked(r, q, InCtrl(n));
    LinkClean(r, q, InCtrl(n));
    LinkedCounts(r, q, InCtrl(n));
    assert OutGrow(r, e, v);
    assert SameInputs(r, e, v);
    SameOn(g, r, e, v);
    forall m | m in ns + [n] ensures InCtrl(m) in e[q] {
      assert m == n || InCtrl(m) in r[q];
    }
  }

  // AddEdge from q to the control input of every node that followed v.
  method PrecedeAll(u: Universe, v: Node, q: Anchor, next: seq<Node>, ghost g0: Links) returns (ok: bool)
    requires Anchored(u) && Member(q, u) && AllPorts(g0) && u.Keys == g0.Keys && InCtrl(v) in g0
    requires q.port.OutData? && q.port.node != v && Adjacent(g0, q.port.node, v) && Rewired(g0, View(u), v)
    requires forall n :: n in next ==> n != v && InCtrl(n) in g0 && Adjacent(g0, v, n)
    modifies u.Values`peers
    ensures Anchored(u) && Rewired(g0, View(u), v)
    ensures old(CleanData(View(u))) ==> ok && SameInputs(old(View(u)), View(u), v) && Precedes(View(u), q.port, next)
  {
    hide Rewired, Adjacent, Anchored, AllPorts, WellLinked, SameInputs, Precedes, CanLink, Linked, CleanData;
    ghost var g := View(u);
    if CleanData(g) {
      SameSelf(g, v);
      PrecedesNone(g, q.port);
    }
    hide View;
    ok := true;
    var k := 0;
    while ok && k < |next|
      invariant Anchored(u) && Rewired(g0, View(u), v) && k <= |next|
      invariant CleanData(g) ==> ok && SameInputs(g, View(u), v) && Precedes(View(u), q.port, next[..k])
    {
      ghost var r := View(u);
      AnchorAt(u, InCtrl(next[k]));
      KeysOf(g0, r, v);
      if CleanData(g) {
        PrecedeOne(g, r, v, q.port, next[..k], next[k]);
      }
      assert next[..k + 1] == next[..k] + [next[k]];
      ok := AddEdge(u, q, u[InCtrl(next[k])], g0, v);
      k := k + 1;
    }
    assert next[..|next|] == next;
  }

  lemma KeysOf(g0: Links, g: Links, v: Node)
    requires Rewired(g0, g, v)
    ensures g.Keys == g0.Keys
  {
  }

  lemma PrecedesNone(r: Links, q: Port)
    requires q in r
    ensures Precedes(r, q, [])
  {
  }

  // The first k data sources of v's control input are cut off and precede ns.
  ghost predicate DataCut(g: Links, r: Links, v: Node, ps: seq<Port>, k: nat, ns: seq<Node>)
    requires k <= |ps|
  {
    ControlsCut(g, r, v, ps, k) && forall i :: 0 <= i < k ==> Precedes(r, ps[i], ns)
  }

  lemma DataCutStep(g: Links, r: Links, e: Links, z: Links, v: Node, ps: seq<Port>, k: nat, ns: seq<Node>)
    requires k < |ps| && DataCut(g, r, v, ps, k, ns) && ControlsCut(g, e, v, ps, k + 1) && OutGrow(r, e, v)
    requires SameInputs(e, z, v) && Precedes(z, ps[k], ns) && e.Keys == r.Keys
    requires forall i :: 0 <= i < |ps| ==> ps[i].IsOut() && ps[i].node != v
    requires forall n :: n in ns ==> n != v && InCtrl(n) in g
    ensures DataCut(g, z, v, ps, k + 1, ns)
  {
    CutSame(g, e, z, v, ps, k + 1);
    CutParts(g, r, v, ps, k);
    CutParts(g, e, v, ps, k + 1);
    SameParts(e, z, v);
    hide ControlsCut, SameInputs, OutGrow, CleanData;
    GrowOn(r, e, z, v);
    forall i | 0 <= i < k + 1 ensures Precedes(z, ps[i], ns) {
      if i < k {
        PrecedesOn(r, z, v, ps[i], ns);
      }
    }
  }

  method BridgeOne(u: Universe, v: Node, q: Anchor, next: seq<Node>, ghost g0: Links, ghost g: Links,
                   ghost ps: seq<Port>, ghost k: nat, ghost clean: bool) returns (ok: bool)
    requires Anchored(u) && Member(q, u) && AllPorts(g0) && u.Keys == g0.Keys && InCtrl(v) in g0
    requires Rewired(g0, View(u), v) && WellLinked(g0) && NoSelfEdge(g0, v)
    requires k < |ps| && q.port == ps[k] && g.Keys == g0.Keys
    requires forall i :: 0 <= i < |ps| ==> ps[i].OutData? && ps[i].node != v && Adjacent(g0, ps[i].node, v)
    requires forall n :: n in next ==> n != v && InCtrl(n) in g0 && Adjacent(g0, v, n)
    requires clean ==> DataCut(g, View(u), v, ps, k, next)
    modifies u.Values`peers
    ensures Anchored(u) && Rewired(g0, View(u), v)
    ensures clean ==> ok && DataCut(g, View(u), v, ps, k + 1, next)
  {
    ghost var r := View(u);
    assert clean ==> ControlsCut(g, r, v, ps, k);
    hide Rewired, NoSelfEdge, Adjacent, Anchored, AllPorts, WellLinked, SameInputs, Precedes, ControlsCut, CanUnlink,
      OutGrow, CleanData, DataCut, View;
    RewiredParts(g0, r, v);
    if clean {
      CutOne(g, r, v, ps, k);
    }
    AnchorAt(u, InCtrl(v));
    ok := RemoveEdge(u, q, u[InCtrl(v)], g0, v);
    if !ok {
      return;
    }
    ghost var e := View(u);
    if clean {
      CutParts(g, e, v, ps, k + 1);
    }
    ok := PrecedeAll(u, v, q, next, g0);
    if clean {
      DataCutStep(g, r, e, View(u), v, ps, k, next);
    }
  }

  method BridgeLoop(u: Universe, v: Node, qs: seq<Anchor>, next: seq<Node>, ghost g0: Links, ghost g: Links,
                    ghost ps: seq<Port>, ghost clean: bool) returns (ok: bool)
    requires Anchored(u) && AllPorts(g0) && u.Keys == g0.Keys && InCtrl(v) in g0 && g.Keys == g0.Keys
    requires Rewired(g0, View(u), v) && WellLinked(g0) && NoSelfEdge(g0, v)
    requires |ps| == |qs| && forall i :: 0 <= i < |qs| ==> Member(qs[i], u) && ps[i] == qs[i].port
    requires forall i :: 0 <= i < |ps| ==> ps[i].OutData? && ps[i].node != v && Adjacent(g0, ps[i].node, v)
    requires forall n :: n in next ==> n != v && InCtrl(n) in g0 && Adjacent(g0, v, n)
    requires clean ==> DataCut(g, View(u), v, ps, 0, next)
    modifies u.Values`peers
    ensures Anchored(u) && Rewired(g0, View(u), v)
    ensures clean ==> ok && DataCut(g, View(u), v, ps, |ps|, next)
  {
    hide Rewired, NoSelfEdge, Adjacent, Anchored, AllPorts, WellLinked, DataCut, View;
    ok := true;
    var k := 0;
    while ok && k < |qs|
      invariant Anchored(u) && Rewired(g0, View(u), v) && k <= |qs|
      invariant clean ==> ok && DataCut(g, View(u), v, ps, k, next)
    {
      ok := BridgeOne(u, v, qs[k], next, g0, g, ps, k, clean);
      k := k + 1;
    }
  }

  // What the loop over data-to-control sources leaves: none of them, and each
  // of them before all former successors of v.
  ghost predicate DataBridged(g: Links, r: Links, v: Node, ns: seq<Node>) {
    var ps := OutDataOf(At(g, InCtrl(v)));
    DataCut(g, r, v, ps, |ps|, ns)
  }

  method BridgeControlInput(u: Universe, v: Node, next: seq<Node>, ghost g0: Links) returns (ok: bool)
    requires Anchored(u) && AllPorts(g0) && u.Keys == g0.Keys && InCtrl(v) in g0
    requires Rewired(g0, View(u), v) && WellLinked(g0) && NoSelfEdge(g0, v)
    requires forall n :: n in next ==> n != v && InCtrl(n) in g0 && Adjacent(g0, v, n)
    modifies u.Values`peers
    ensures Anchored(u) && Rewired(g0, View(u), v)
    ensures old(CleanData(View(u))) ==> ok && DataBridged(old(View(u)), View(u), v, next)
  {
    var input := u[InCtrl(v)];
    AnchorAt(u, InCtrl(v));
    var qs := input.GetPeerOutDataAnchors();
    ghost var g, ps := View(u), PortsOf(qs);
    assert ps == OutDataOf(g[InCtrl(v)]);
    PeersAreMembers(u, input, qs);
    KeysOf(g0, g, v);
    hide Rewired, NoSelfEdge, Adjacent, Anchored, View, AllPorts, WellLinked, ControlsCut, CleanData, Precedes,
      OutDataOf;
    SourcesAhead(g0, g, v);
    if CleanData(g) {
      CutStart(g, v, ps);
    }
    ok := BridgeLoop(u, v, qs, next, g0, g, ps, CleanData(g));
  }

  // The data sources of v's control input stand ahead of v in the original.
  lemma SourcesAhead(g0: Links, g: Links, v: Node)
    requires InCtrl(v) in g && Rewired(g0, g, v) && WellLinked(g0) && NoSelfEdge(g0, v)
    ensures var ps := OutDataOf(g[InCtrl(v)]);
      && multiset(ps) <= multiset(g[InCtrl(v)])
      && forall i :: 0 <= i < |ps| ==> ps[i].OutData? && ps[i].node != v && Adjacent(g0, ps[i].node, v)
  {
    OutFilterPart(g[InCtrl(v)]);
    hide Rewired, NoSelfEdge, Adjacent, WellLinked, OutDataOf;
    var ps := OutDataOf(g[InCtrl(v)]);
    forall i | 0 <= i < |ps| ensures ps[i].OutData? && ps[i].node != v && Adjacent(g0, ps[i].node, v) {
      InAdjacent(g0, g, v, InCtrl(v), ps[i]);
    }
  }

  // ------------------------------------------------------- GetOutAllNodes

  method OwnersOf(xs: seq<Anchor>) returns (r: seq<Node>)
    ensures r == Owners(PortsOf(xs))
  {
    r := [];
    for k := 0 to |xs|
      invariant r == Owners(PortsOf(xs[..k]))
    {
      assert Front(PortsOf(xs[..k + 1])) == PortsOf(xs[..k]);
      r := r + [xs[k].port.node];
    }
    assert xs[..|xs|] == xs;
  }

  method GetOutAllNodes(u: Universe, v: Node) returns (next: seq<Node>)
    requires Anchored(u) && HasPorts(View(u), v)
    ensures next == NodeTargets(View(u), v)
  {
    hide PortsTargets, HasPorts;
    ghost var g := View(u);
    next := [];
    TargetsStart(g);
    for k := 0 to v.outputs
      invariant next == PortsTargets(g, DataOutPorts(v, k))
    {
      OwnPort(g, v, OutData(v, k));
      TargetsStep(g, DataOutPorts(v, k), OutData(v, k));
      var anchor := u[OutData(v, k)];
      var dataPeers := anchor.GetPeerInDataAnchors();
      var ctrlPeers := anchor.GetPeerInControlAnchors();
      var a := OwnersOf(dataPeers);
      var b := OwnersOf(ctrlPeers);
      Associative(next, a, b);
      next := next + a + b;
    }
    OwnPort(g, v, OutCtrl(v));
    TargetsStep(g, DataOutPorts(v, v.outputs), OutCtrl(v));
    OutPortsAre(v);
    var c := OwnersOf(u[OutCtrl(v)].peers);
    next := next + c;
  }

  lemma TargetsStart(g: Links)
    ensures PortsTargets(g, []) == []
  {
  }

  lemma TargetsStep(g: Links, ps: seq<Port>, p: Port)
    ensures PortsTargets(g, ps + [p]) == PortsTargets(g, ps) + PortTargets(g, p)
  {
    assert Front(ps + [p]) == ps;
  }

  lemma {:induction false} OwnerSource(s: seq<Port>, n: Node) returns (x: Port)
    requires n in Owners(s)
    ensures x in s && x.node == n
  {
    if Last(s).node == n {
      x := Last(s);
    } else {
      x := OwnerSource(Front(s), n);
    }
  }

  lemma TargetsOfPort(g: Links, p: Port, n: Node)
    requires Closed(g) && p in g && p.IsOut() && n in PortTargets(g, p)
    ensures n in Owners(g[p])
  {
    PortTargetsCount(g, p, n);
    OwnersHits(g[p], n);
    assert n in multiset(PortTargets(g, p));
    assert n in multiset(Owners(g[p]));
  }

  lemma {:induction false} TargetsAdjacent(g: Links, v: Node, ps: seq<Port>)
    requires Closed(g) && OutsAway(g, v) && forall p :: p in ps ==> p in OutPorts(v) && p in g
    ensures forall n :: n in PortsTargets(g, ps) ==> n != v && Adjacent(g, v, n) && exists x :: x in g && x.node == n
  {
    if ps != [] {
      FrontLast(ps);
      TargetsAdjacent(g, v, Front(ps));
      var p := Last(ps);
      PortsOfNode(v);
      FilterIn(g[p]);
      forall n | n in PortTargets(g, p) ensures n != v && Adjacent(g, v, n) && exists x :: x in g && x.node == n {
        TargetsOfPort(g, p, n);
        var x := OwnerSource(g[p], n);
      }
    }
  }

  // --------------------------------------------------------- the operation

  // What isolating v makes of a state without control-to-data links.
  ghost predicate IsolatedFrom(g0: Links, r: Links, v: Node) {
    var feed := FeedUpTo(g0, v, v.inputs);
    var controls := OutCtrlOf(At(g0, InCtrl(v)));
    // v has no edge left,
    && NoPorts(r, v)
    // its data consumers hang on the first non-constant source, or on nothing,
    && Refed(g0, r, v, feed, false)
    // that source, or else the first control predecessor, has taken over every
    // consumer,
    && (feed.FeedFrom? ==> Bridged(g0, r, feed.source, OutPorts(v)))
    && (feed.NoFeed? && controls != [] ==> ControlBridged(g0, r, controls[0], OutPorts(v)))
    // and data sources of the control input precede all former successors.
    && forall q :: q in OutDataOf(At(g0, InCtrl(v))) ==> Precedes(r, q, NodeTargets(g0, v))
  }

  lemma {:induction false} OutFilterSum(s: seq<Port>)
    requires forall q :: q in s ==> q.IsOut()
    ensures multiset(OutCtrlOf(s)) + multiset(OutDataOf(s)) == multiset(s)
  {
    if s != [] {
      assert s == Front(s) + [Last(s)] && Last(s).IsOut();
      OutFilterSum(Front(s));
    }
  }

  lemma {:induction false} AllOutData(s: seq<Port>)
    requires forall q :: q in s ==> q.OutData?
    ensures OutDataOf(s) == s
  {
    if s != [] {
      assert s == Front(s) + [Last(s)] && Last(s) in s;
      AllOutData(Front(s));
    }
  }

  // After the control sources are gone only data sources are left.
  lemma ControlsGone(g: Links, r: Links, v: Node)
    requires WellLinked(g) && ControlsForwarded(g, r, v)
    ensures InCtrl(v) in g && InCtrl(v) in r && OutDataOf(r[InCtrl(v)]) == r[InCtrl(v)]
    ensures multiset(r[InCtrl(v)]) == multiset(OutDataOf(g[InCtrl(v)]))
  {
    var s := g[InCtrl(v)];
    OutFilterSum(s);
    OutFilterPart(s);
    var ps := OutCtrlOf(s);
    assert ps[..|ps|] == ps;
    forall q | q in r[InCtrl(v)] ensures q.OutData? {
      assert q in multiset(r[InCtrl(v)]);
      assert q in multiset(OutDataOf(s));
    }
    AllOutData(r[InCtrl(v)]);
  }

  lemma NoneLeft(g: Links, r: Links, v: Node, ns: seq<Node>)
    requires InCtrl(v) in g && OutDataOf(g[InCtrl(v)]) == g[InCtrl(v)] && DataBridged(g, r, v, ns)
    ensures InCtrl(v) in r && r[InCtrl(v)] == []
  {
    hide OutGrow, Precedes, Closed, Symmetric, OutDataOf;
    var ps := OutDataOf(g[InCtrl(v)]);
    CutLeaves(g, r, v, ps);
    assert |multiset(r[InCtrl(v)])| == |r[InCtrl(v)]|;
  }

  lemma CutLeaves(g: Links, r: Links, v: Node, ps: seq<Port>)
    requires InCtrl(v) in g && g[InCtrl(v)] == ps && ControlsCut(g, r, v, ps, |ps|)
    ensures InCtrl(v) in r && multiset(r[InCtrl(v)]) == multiset{}
  {
    hide OutGrow, Closed, Symmetric;
    assert ps[..|ps|] == ps;
  }

  // The four phases.
  ghost predicate Phases(g0: Links, g1: Links, g2: Links, g3: Links, g4: Links, v: Node) {
    && WellLinked(g0) && WellLinked(g1) && NoSelfEdge(g0, v) && InCtrl(v) in g0
    && (forall p {:trigger p in g0} :: p in g0 ==> IsPort(p))
    && InputsState(g0, g1, v, v.inputs, FeedUpTo(g0, v, v.inputs))
    && ControlsForwarded(g1, g2, v)
    && DataBridged(g2, g3, v, NodeTargets(g0, v))
    && OutsDropped(g3, g4, v)
  }

  lemma PhasesKeys(g0: Links, g1: Links, g2: Links, g3: Links, g4: Links, v: Node)
    requires Phases(g0, g1, g2, g3, g4, v)
    ensures g1.Keys == g0.Keys && g2.Keys == g0.Keys && g3.Keys == g0.Keys && g4.Keys == g0.Keys
    ensures OutGrow(g1, g2, v) && OutGrow(g2, g3, v) && OutGrow(g3, g4, v)
    ensures forall x :: x in g0 && x.InData? ==> g3[x] == g1[x]
  {
    forall x | x in g0 && x.InData? ensures g3[x] == g1[x] {
      assert g2[x] == g1[x];
    }
  }

  lemma PhasesInputs(g0: Links, g1: Links, g2: Links, g3: Links, g4: Links, v: Node)
    requires Phases(g0, g1, g2, g3, g4, v)
    ensures NoPorts(g4, v)
  {
    PhasesKeys(g0, g1, g2, g3, g4, v);
    ControlsGone(g1, g2, v);
    NoneLeft(g2, g3, v, NodeTargets(g0, v));
    forall p | p in g4 && p.node == v ensures g4[p] == [] {
      assert g4[p] == if p.IsOut() then [] else g3[p];
      if p.InData? {
        assert g1[p] == AfterInputs(g0, p, v.inputs, FeedUpTo(g0, v, v.inputs));
      }
    }
  }

  // Re-feeding and then clearing what v still feeds is re-feeding or clearing.
  lemma RefedTwice(g0: Links, g: Links, r: Links, v: Node, feed: Feed)
    requires Refed(g0, g, v, feed, true) && Refed(g, r, v, NoFeed, false) && g.Keys == g0.Keys && r.Keys == g0.Keys
    requires feed.FeedFrom? ==> feed.source.node != v
    ensures Refed(g0, r, v, feed, false)
  {
    forall x | x in g0 && x.InData? && x.node != v ensures x in r && r[x] == Refeed(g0, x, v, feed, false) {
      assert x in g && g[x] == Refeed(g0, x, v, feed, true);
      assert x in r && r[x] == Refeed(g, x, v, NoFeed, false);
    }
  }

  lemma RefedThrough(g0: Links, g: Links, r: Links, v: Node, feed: Feed)
    requires Refed(g0, g, v, feed, true) && r.Keys == g0.Keys && g.Keys == g0.Keys
    requires forall x {:trigger r[x]} :: x in g0 && x.InData? ==> r[x] == g[x]
    ensures Refed(g0, r, v, feed, true)
  {
    forall x | x in g0 && x.InData? && x.node != v ensures x in r && r[x] == Refeed(g0, x, v, feed, true) {
      assert g[x] == Refeed(g0, x, v, feed, true);
    }
  }

  lemma PhasesRefed(g0: Links, g1: Links, g2: Links, g3: Links, g4: Links, v: Node)
    requires Phases(g0, g1, g2, g3, g4, v)
    ensures Refed(g0, g4, v, FeedUpTo(g0, v, v.inputs), false)
  {
    PhasesKeys(g0, g1, g2, g3, g4, v);
    FeedNotSelf(g0, v, v.inputs);
    hide Refed, FeedUpTo, WellLinked, NoSelfEdge, ControlsForwarded, DataBridged, OutGrow, Bridged, CleanData;
    var feed := FeedUpTo(g0, v, v.inputs);
    RefedThrough(g0, g1, g3, v, feed);
    RefedTwice(g0, g3, g4, v, feed);
  }

  lemma PhasesBridged(g0: Links, g1: Links, g2: Links, g3: Links, g4: Links, v: Node)
    requires Phases(g0, g1, g2, g3, g4, v)
    ensures var feed := FeedUpTo(g0, v, v.inputs);
      && (feed.FeedFrom? ==> Bridged(g0, g4, feed.source, OutPorts(v)))
      && (feed.NoFeed? && OutCtrlOf(g0[InCtrl(v)]) != [] ==>
           ControlBridged(g0, g4, OutCtrlOf(g0[InCtrl(v)])[0], OutPorts(v)))
  {
    PhasesKeys(g0, g1, g2, g3, g4, v);
    NoSelfOutsAway(g0, v);
    FeedNotSelf(g0, v, v.inputs);
    GrowOn(g1, g2, g3, v);
    GrowOn(g1, g3, g4, v);
    GrowOn(g2, g3, g4, v);
    var feed := FeedUpTo(g0, v, v.inputs);
    var controls := OutCtrlOf(g0[InCtrl(v)]);
    if feed.FeedFrom? {
      BridgedOn(g0, g1, g4, v, feed.source, OutPorts(v));
    } else if controls != [] {
      assert g1[InCtrl(v)] == AfterInputs(g0, InCtrl(v), v.inputs, feed);
      ControlSource(g0, v);
      OutputsKept(g0, g1, g2, v, controls[0]);
      BridgeLasts(g0, g2, g4, v, controls[0]);
    }
  }

  lemma ControlSource(g0: Links, v: Node)
    requires WellLinked(g0) && NoSelfEdge(g0, v) && InCtrl(v) in g0 && OutCtrlOf(g0[InCtrl(v)]) != []
    ensures OutCtrlOf(g0[InCtrl(v)])[0].IsOut() && OutCtrlOf(g0[InCtrl(v)])[0].node != v
  {
    OutFilterPart(g0[InCtrl(v)]);
    RewiredSelf(g0, v);
    InAdjacent(g0, g0, v, InCtrl(v), OutCtrlOf(g0[InCtrl(v)])[0]);
  }

  lemma OutputsKept(g0: Links, g1: Links, g2: Links, v: Node, c: Port)
    requires InputsState(g0, g1, v, v.inputs, NoFeed) && ControlBridged(g1, g2, c, OutPorts(v))
    ensures ControlBridged(g0, g2, c, OutPorts(v))
  {
    PortsOfNode(v);
    forall p, x | p in g0 && p in OutPorts(v) && x in g0[p] && x.InCtrl? ensures c in g2 && x in g2[c] {
      assert g1[p] == AfterInputs(g0, p, v.inputs, NoFeed);
    }
  }

  lemma PrecedesWhenCut(g2: Links, g3: Links, v: Node, q: Port, ns: seq<Node>)
    requires DataBridged(g2, g3, v, ns) && q in OutDataOf(At(g2, InCtrl(v)))
    ensures Precedes(g3, q, ns)
  {
  }

  lemma NotOwnSource(g: Links, v: Node, q: Port)
    requires WellLinked(g) && NoSelfEdge(g, v) && InCtrl(v) in g && q in OutDataOf(g[InCtrl(v)])
    ensures q.IsOut() && q.node != v
  {
    OutFilterPart(g[InCtrl(v)]);
    RewiredSelf(g, v);
    hide Rewired, NoSelfEdge, Adjacent, WellLinked;
    InAdjacent(g, g, v, InCtrl(v), q);
  }

  // The data sources of v's control input outlive the first two phases.
  lemma SourcesKept(g0: Links, g1: Links, g2: Links, v: Node, q: Port)
    requires InCtrl(v) in g0 && WellLinked(g1) && q in OutDataOf(g0[InCtrl(v)])
    requires InputsState(g0, g1, v, v.inputs, FeedUpTo(g0, v, v.inputs)) && ControlsForwarded(g1, g2, v)
    ensures q in OutDataOf(At(g2, InCtrl(v)))
  {
    assert g1[InCtrl(v)] == AfterInputs(g0, InCtrl(v), v.inputs, FeedUpTo(g0, v, v.inputs));
    ControlsGone(g1, g2, v);
    assert q in multiset(OutDataOf(g1[InCtrl(v)]));
    assert q in multiset(g2[InCtrl(v)]);
  }

  lemma PhasesPrecede(g0: Links, g1: Links, g2: Links, g3: Links, g4: Links, v: Node, q: Port)
    requires Phases(g0, g1, g2, g3, g4, v) && q in OutDataOf(g0[InCtrl(v)])
    requires forall n :: n in NodeTargets(g0, v) ==> n != v && InCtrl(n) in g0
    ensures Precedes(g4, q, NodeTargets(g0, v))
  {
    PhasesKeys(g0, g1, g2, g3, g4, v);
    hide Precedes, DataBridged, ControlsForwarded, InputsState, OutsDropped, OutGrow, NoSelfEdge, WellLinked,
      NodeTargets, FeedUpTo, OutDataOf;
    SourcesKept(g0, g1, g2, v, q);
    PrecedesWhenCut(g2, g3, v, q, NodeTargets(g0, v));
    NotOwnSource(g0, v, q);
    PrecedesOn(g3, g4, v, q, NodeTargets(g0, v));
  }

  lemma PhasesIsolate(g0: Links, g1: Links, g2: Links, g3: Links, g4: Links, v: Node)
    requires Phases(g0, g1, g2, g3, g4, v)
    requires forall n :: n in NodeTargets(g0, v) ==> n != v && InCtrl(n) in g0
    ensures IsolatedFrom(g0, g4, v)
  {
    PhasesInputs(g0, g1, g2, g3, g4, v);
    PhasesRefed(g0, g1, g2, g3, g4, v);
    PhasesBridged(g0, g1, g2, g3, g4, v);
    hide NoPorts, Refed, Bridged, ControlBridged, OutDataOf, OutCtrlOf, Precedes, FeedUpTo;
    forall q | q in OutDataOf(At(g0, InCtrl(v))) ensures Precedes(g4, q, NodeTargets(g0, v)) {
      PhasesPrecede(g0, g1, g2, g3, g4, v, q);
    }
  }

  lemma Successors(g0: Links, v: Node)
    requires WellLinked(g0) && NoSelfEdge(g0, v) && AllPorts(g0) && InCtrl(v) in g0
    ensures HasPorts(g0, v)
    ensures forall n :: n in NodeTargets(g0, v) ==> n != v && InCtrl(n) in g0 && Adjacent(g0, v, n)
  {
    NoSelfOutsAway(g0, v);
    assert InCtrl(v).node == v;
    TargetsAdjacent(g0, v, OutPorts(v));
    forall n | n in NodeTargets(g0, v) ensures InCtrl(n) in g0 {
      var x :| x in g0 && x.node == n;
      PortAt(g0, g0, InCtrl(n));
    }
  }

  method IsolateNode(u: Universe, v: Node) returns (ok: bool)
    requires Anchored(u) && WellLinked(View(u)) && AllPorts(View(u)) && InCtrl(v) in u && NoSelfEdge(View(u), v)
    modifies u.Values`peers
    ensures Anchored(u) && Rewired(old(View(u)), View(u), v)
    ensures old(CleanData(View(u))) ==> ok && IsolatedFrom(old(View(u)), View(u), v)
  {
    ghost var g0 := View(u);
    assert u.Keys == g0.Keys && InCtrl(v) in g0;
    ghost var clean := CleanData(g0);
    hide Rewired, NoSelfEdge, Adjacent, Anchored, View, AllPorts, WellLinked, CleanData, InputsState, ControlsForwarded,
      DataBridged, OutsDropped, IsolatedFrom, NodeTargets, FeedUpTo, Phases;
    Successors(g0, v);
    var next := GetOutAllNodes(u, v);
    ok := CutInputs(u, v, g0);
    if !ok {
      return;
    }
    ghost var g1 := View(u);
    if clean {
      InputsClean(g0, g1, v, v.inputs, FeedUpTo(g0, v, v.inputs));
    }
    ok := ForwardControls(u, v, g0);
    if !ok {
      return;
    }
    ghost var g2 := View(u);
    if clean {
      ForwardedClean(g1, g2, v);
    }
    ok := BridgeControlInput(u, v, next, g0);
    if !ok {
      return;
    }
    ghost var g3 := View(u);
    if clean {
      BridgedClean(g2, g3, v, next);
    }
    ok := RemoveExtraOutEdge(u, v, g0);
    if clean {
      PhasesHold(g0, g1, g2, g3, View(u), v);
      PhasesIsolate(g0, g1, g2, g3, View(u), v);
    }
  }

  lemma ForwardedClean(g: Links, r: Links, v: Node)
    requires ControlsForwarded(g, r, v)
    ensures CleanData(r)
  {
  }

  lemma BridgedClean(g: Links, r: Links, v: Node, ns: seq<Node>)
    requires DataBridged(g, r, v, ns)
    ensures CleanData(r)
  {
  }

  lemma PhasesHold(g0: Links, g1: Links, g2: Links, g3: Links, g4: Links, v: Node)
    requires WellLinked(g0) && Rewired(g0, g1, v) && NoSelfEdge(g0, v) && InCtrl(v) in g0 && AllPorts(g0)
    requires InputsState(g0, g1, v, v.inputs, FeedUpTo(g0, v, v.inputs)) && ControlsForwarded(g1, g2, v)
    requires DataBridged(g2, g3, v, NodeTargets(g0, v)) && OutsDropped(g3, g4, v)
    ensures Phases(g0, g1, g2, g3, g4, v)
  {
    hide InputsState, ControlsForwarded, DataBridged, OutsDropped;
  }
}
