// Moving the peers of one out anchor of an isolated node over to an out anchor
// of a predecessor: the inner loops of IsolateNode.
module Moving {
  import opened Links
  import opened Anchors
  import opened Rewiring

  // r is g after the peers xs of f were handed over to t.
  ghost predicate MovedAll(g: Links, r: Links, f: Port, t: Port, xs: seq<Port>) {
    && f in g && t in g && r.Keys == g.Keys && CleanData(r)
    && multiset(r[f]) == multiset(g[f]) - multiset(xs)
    && multiset(r[t]) == multiset(g[t]) + multiset(xs)
    && (forall p {:trigger r[p]} :: p in g && p != f && p != t && p !in xs ==> r[p] == g[p])
    && (forall x {:trigger r[x]} :: x in g && x in xs && x.InData? ==> r[x] == [t])
  }

  // t may feed every port of xs.
  ghost predicate Feedable(t: Port, xs: seq<Port>) {
    forall x :: x in xs ==> x.IsIn() && (x.InData? ==> t.OutData?)
  }

  lemma UnlinkClean(g: Links, f: Port, x: Port)
    requires WellLinked(g) && CleanData(g) && f in g && x in g[f] && f.IsOut() && x.IsIn()
    ensures x in g && CanUnlink(g, f, x) && CleanData(Unlinked(g, f, x))
    ensures x.InData? ==> g[x] == [f] && Unlinked(g, f, x)[x] == []
  {
    PeersAgree(g, f, x);
    var r := Unlinked(g, f, x);
    RemoveFirstElements(g[x], f);
    if x.InData? {
      assert f in g[x] && |g[x]| <= 1;
      assert g[x] == [f];
    }
    forall y | y in r && y.InData? ensures |r[y]| <= 1 && forall o :: o in r[y] ==> o.OutData? {
      if y != x {
        assert r[y] == g[y];
      }
    }
  }

  lemma LinkClean(g: Links, t: Port, x: Port)
    requires CleanData(g) && t in g && x in g && t.IsOut() && x.IsIn() && (x.InData? ==> t.OutData? && g[x] == [])
    ensures CanLink(g, t, x) && CleanData(Linked(g, t, x))
  {
    var r := Linked(g, t, x);
    forall y | y in r && y.InData? ensures |r[y]| <= 1 && forall o :: o in r[y] ==> o.OutData? {
      if y != x {
        assert r[y] == g[y];
      } else {
        assert r[y] == [] + [t];
      }
    }
  }

  // One peer handed over in a clean state.
  lemma MoveStep(g: Links, r: Links, f: Port, t: Port, xs: seq<Port>, x: Port)
    requires WellLinked(r) && MovedAll(g, r, f, t, xs) && t in g && f != t && f.IsOut() && t.IsOut()
    requires x in r[f] && x.IsIn() && (x.InData? ==> t.OutData?)
    ensures x in r && CanUnlink(r, f, x) && CanLink(Unlinked(r, f, x), t, x)
    ensures MovedAll(g, Linked(Unlinked(r, f, x), t, x), f, t, xs + [x])
  {
    UnlinkClean(r, f, x);
    LinkClean(Unlinked(r, f, x), t, x);
    MoveStepAt(r, f, t, x);
    hide WellLinked, CleanData, Linked, Unlinked, CanLink, CanUnlink;
    var e := Linked(Unlinked(r, f, x), t, x);
    OneMore(multiset(g[f]), multiset(r[f]), xs, x);
    OneMorePlus(multiset(g[t]), multiset(r[t]), xs, x);
    forall y | y in g && y in xs + [x] && y.InData? ensures e[y] == [t] {
      if y != x {
        assert e[y] == r[y];
      }
    }
  }

  lemma OneMore(s: multiset<Port>, r: multiset<Port>, xs: seq<Port>, x: Port)
    requires r == s - multiset(xs)
    ensures r - multiset{x} == s - multiset(xs + [x])
  {
    assert multiset(xs + [x]) == multiset(xs) + multiset{x};
  }

  lemma OneMorePlus(s: multiset<Port>, r: multiset<Port>, xs: seq<Port>, x: Port)
    requires r == s + multiset(xs)
    ensures r + multiset{x} == s + multiset(xs + [x])
  {
  }

  lemma MovedElse(g: Links, r: Links, f: Port, t: Port, xs: seq<Port>, p: Port)
    requires MovedAll(g, r, f, t, xs) && p in g && p != f && p != t && p !in xs
    ensures p in r && r[p] == g[p]
  {
  }

  lemma MovedFed(g: Links, r: Links, f: Port, t: Port, xs: seq<Port>, x: Port)
    requires MovedAll(g, r, f, t, xs) && x in g && x in xs && x.InData?
    ensures x in r && r[x] == [t]
  {
  }

  lemma MoveStepAt(r: Links, f: Port, t: Port, x: Port)
    requires f in r && t in r && x in r && x in r[f] && f != t && f != x && t != x
    ensures var e := Linked(Unlinked(r, f, x), t, x);
      && e.Keys == r.Keys
      && multiset(e[f]) == multiset(r[f]) - multiset{x}
      && multiset(e[t]) == multiset(r[t]) + multiset{x}
      && (r[x] == [f] ==> e[x] == [t])
      && forall y :: y in r && y != f && y != t && y != x ==> e[y] == r[y]
  {
    RemoveFirstMultiset(r[f], x);
    if r[x] == [f] {
      assert RemoveFirst(r[x], f) == [];
      assert [] + [t] == [t];
    }
  }

  lemma OwnedPeer(g0: Links, g: Links, v: Node, f: Port, x: Port)
    requires Rewired(g0, g, v) && WellLinked(g0) && NoSelfEdge(g0, v)
    requires f in g && f.IsOut() && f.node == v && x in g[f]
    ensures x in g && x.IsIn() && x.node != v && Adjacent(g0, v, x.node)
  {
    assert x.IsIn();
    assert Mult(g, f, x) > 0;
    assert Intact(g0, g, v, f, x);
    assert x in g0[f];
  }

  // RemoveEdge(from, x) followed by AddEdge(to, x).
  method MoveOne(u: Universe, from: Anchor, to: Anchor, x: Anchor, ghost g0: Links, ghost v: Node) returns (ok: bool)
    requires Anchored(u) && Member(from, u) && Member(to, u) && Member(x, u)
    requires from.port.IsOut() && to.port.IsOut() && from.port.node == v != to.port.node
    requires Rewired(g0, View(u), v) && WellLinked(g0) && NoSelfEdge(g0, v) && Adjacent(g0, to.port.node, v)
    requires x.port in View(u)[from.port]
    modifies u.Values`peers
    ensures Anchored(u) && Rewired(g0, View(u), v)
    ensures ok ==> View(u) == Linked(Unlinked(old(View(u)), from.port, x.port), to.port, x.port)
    ensures ok <==> CanLink(Unlinked(old(View(u)), from.port, x.port), to.port, x.port)
  {
    hide Rewired, NoSelfEdge, Adjacent, CanLink, Linked;
    ghost var g := View(u);
    OwnedPeer(g0, g, v, from.port, x.port);
    RewiredParts(g0, g, v);
    PeersAgree(g, from.port, x.port);
    UnlinkRewired(g0, g, v, from.port, x.port);
    ok := from.Unlink(x, u);
    LinkRewired(g0, View(u), v, to.port, x.port);
    ok := to.LinkTo(x, u);
  }

  lemma RewiredParts(g0: Links, g: Links, v: Node)
    requires Rewired(g0, g, v)
    ensures g.Keys == g0.Keys && WellLinked(g)
  {
  }

  method MoveKth(u: Universe, from: Anchor, to: Anchor, x: Anchor, ghost g0: Links, ghost v: Node,
                 ghost g: Links, ghost ps: seq<Port>, ghost k: nat, ghost clean: bool) returns (ok: bool)
    requires Anchored(u) && Member(from, u) && Member(to, u) && Member(x, u)
    requires from.port.IsOut() && to.port.IsOut() && from.port.node == v != to.port.node
    requires Rewired(g0, View(u), v) && WellLinked(g0) && NoSelfEdge(g0, v) && Adjacent(g0, to.port.node, v)
    requires k < |ps| && ps[k] == x.port && MoveState(g, View(u), from.port, to.port, ps, k, clean)
    modifies u.Values`peers
    ensures Anchored(u) && Rewired(g0, View(u), v)
    ensures clean ==> ok
    ensures ok ==> MoveState(g, View(u), from.port, to.port, ps, k + 1, clean)
  {
    hide Rewired, NoSelfEdge, Adjacent, CanLink, Linked, Unlinked, WellLinked, Anchored;
    MoveStateStep(g0, g, View(u), v, from.port, to.port, ps, k, clean);
    hide MoveState;
    ok := MoveOne(u, from, to, x, g0, v);
  }

  method MoveLoop(u: Universe, from: Anchor, to: Anchor, xs: seq<Anchor>, ghost g0: Links, ghost v: Node,
                  ghost g: Links, ghost ps: seq<Port>, ghost clean: bool) returns (ok: bool)
    requires Anchored(u) && Member(from, u) && Member(to, u)
    requires |ps| == |xs| && forall i :: 0 <= i < |xs| ==> Member(xs[i], u) && ps[i] == xs[i].port
    requires from.port.IsOut() && to.port.IsOut() && from.port.node == v != to.port.node
    requires Rewired(g0, View(u), v) && WellLinked(g0) && NoSelfEdge(g0, v) && Adjacent(g0, to.port.node, v)
    requires MoveState(g, View(u), from.port, to.port, ps, 0, clean)
    modifies u.Values`peers
    ensures Anchored(u) && Rewired(g0, View(u), v)
    ensures clean ==> ok
    ensures ok ==> MoveState(g, View(u), from.port, to.port, ps, |ps|, clean)
  {
    hide *;
    ok := true;
    var k := 0;
    while ok && k < |xs|
      invariant k <= |xs|
      invariant Anchored(u) && Rewired(g0, View(u), v)
      invariant clean ==> ok
      invariant ok ==> MoveState(g, View(u), from.port, to.port, ps, k, clean)
      decreases |xs| - k
    {
      ok := MoveKth(u, from, to, xs[k], g0, v, g, ps, k, clean);
      k := k + 1;
    }
  }

  method MovePeers(u: Universe, from: Anchor, to: Anchor, xs: seq<Anchor>, ghost g0: Links, ghost v: Node)
      returns (ok: bool)
    requires Anchored(u) && Member(from, u) && Member(to, u) && forall x :: x in xs ==> Member(x, u)
    requires from.port.IsOut() && to.port.IsOut() && from.port.node == v != to.port.node
    requires Rewired(g0, View(u), v) && WellLinked(g0) && NoSelfEdge(g0, v) && Adjacent(g0, to.port.node, v)
    requires multiset(PortsOf(xs)) <= multiset(View(u)[from.port])
    modifies u.Values`peers
    ensures Anchored(u) && Rewired(g0, View(u), v)
    ensures old(CleanData(View(u))) && Feedable(to.port, PortsOf(xs)) ==>
      ok && MovedAll(old(View(u)), View(u), from.port, to.port, PortsOf(xs))
  {
    ghost var g, ps := View(u), PortsOf(xs);
    ghost var clean := CleanData(g) && Feedable(to.port, ps);
    hide *;
    MoveStart(g, from.port, to.port, ps, clean);
    ok := MoveLoop(u, from, to, xs, g0, v, g, ps, clean);
    if ok {
      MoveEnd(g, View(u), from.port, to.port, ps, clean);
    }
  }

  ghost predicate MoveState(g: Links, r: Links, f: Port, t: Port, ps: seq<Port>, k: nat, clean: bool)
    requires k <= |ps|
  {
    && f in g && r.Keys == g.Keys
    && multiset(ps) <= multiset(g[f])
    && multiset(r[f]) == multiset(g[f]) - multiset(ps[..k])
    && (clean ==> MovedAll(g, r, f, t, ps[..k]) && Feedable(t, ps))
  }

  lemma MoveStart(g: Links, f: Port, t: Port, ps: seq<Port>, clean: bool)
    requires f in g && t in g && multiset(ps) <= multiset(g[f]) && (clean ==> CleanData(g) && Feedable(t, ps))
    ensures MoveState(g, g, f, t, ps, 0, clean)
  {
  }

  lemma MoveEnd(g: Links, r: Links, f: Port, t: Port, ps: seq<Port>, clean: bool)
    requires MoveState(g, r, f, t, ps, |ps|, clean)
    ensures clean ==> MovedAll(g, r, f, t, ps)
  {
    assert ps[..|ps|] == ps;
  }

  lemma MoveStateStep(g0: Links, g: Links, r: Links, v: Node, f: Port, t: Port, ps: seq<Port>, k: nat, clean: bool)
    requires k < |ps| && MoveState(g, r, f, t, ps, k, clean) && Rewired(g0, r, v)
    requires f in g && t in g && f != t && f.IsOut() && t.IsOut()
    ensures f in r && t in r && ps[k] in r && ps[k] in r[f]
    ensures clean ==> CanLink(Unlinked(r, f, ps[k]), t, ps[k])
    ensures MoveState(g, Linked(Unlinked(r, f, ps[k]), t, ps[k]), f, t, ps, k + 1, clean)
  {
    hide CanLink, Linked, Unlinked, MovedAll, Feedable, WellLinked;
    RewiredParts(g0, r, v);
    hide Rewired;
    StillThere(g[f], r[f], ps, k);
    assert ps[..k + 1] == ps[..k] + [ps[k]];
    assert ps[k] in r && ps[k].IsIn() by {
      RewiredParts(g0, r, v);
      PeerIsIn(r, f, ps[k]);
    }
    MovedLeft(r, f, t, ps[k]);
    if clean {
      FeedableAt(t, ps, k);
      RewiredParts(g0, r, v);
      MoveStep(g, r, f, t, ps[..k], ps[k]);
    }
  }

  lemma PeerIsIn(r: Links, f: Port, x: Port)
    requires WellLinked(r) && f in r && f.IsOut() && x in r[f]
    ensures x in r && x.IsIn()
  {
  }

  lemma StillThere(s: seq<Port>, r: seq<Port>, ps: seq<Port>, k: nat)
    requires k < |ps| && multiset(ps) <= multiset(s) && multiset(r) == multiset(s) - multiset(ps[..k])
    ensures ps[k] in r && multiset(r) - multiset{ps[k]} == multiset(s) - multiset(ps[..k + 1])
  {
    assert ps == ps[..k] + [ps[k]] + ps[k + 1..];
    assert ps[..k + 1] == ps[..k] + [ps[k]];
    assert ps[k] in multiset(r);
  }

  lemma FeedableAt(t: Port, xs: seq<Port>, k: nat)
    requires Feedable(t, xs) && k < |xs|
    ensures xs[k].IsIn() && (xs[k].InData? ==> t.OutData?)
  {
  }

  lemma MovedLeft(r: Links, f: Port, t: Port, x: Port)
    requires f in r && t in r && x in r && x in r[f] && f != t && f != x
    ensures multiset(Linked(Unlinked(r, f, x), t, x)[f]) == multiset(r[f]) - multiset{x}
    ensures Linked(Unlinked(r, f, x), t, x).Keys == r.Keys
  {
    RemoveFirstMultiset(r[f], x);
  }
}
