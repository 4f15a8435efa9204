// What isolating a node may do to the links: edges away from the node stay,
// its own edges only disappear, and every new edge bridges an old way through
// the node.
module Rewiring {
  import opened Links

  // Some edge leads from m to n.
  ghost predicate Adjacent(g: Links, m: Node, n: Node) {
    exists p, q :: p in g && q in g[p] && p.IsOut() && p.node == m && q.node == n
  }

  ghost predicate NoSelfEdge(g: Links, v: Node) {
    !Adjacent(g, v, v)
  }

  ghost predicate Intact(g0: Links, g: Links, v: Node, a: Port, b: Port)
    requires a in g0 && a in g
  {
    if a.node == v || b.node == v then Mult(g, a, b) <= Mult(g0, a, b)
    else
      && Mult(g, a, b) >= Mult(g0, a, b)
      && (Mult(g, a, b) > Mult(g0, a, b) ==> Adjacent(g0, a.node, v) && Adjacent(g0, v, b.node))
  }

  // g is g0 with some ways through v bridged and some edges of v removed.
  ghost predicate Rewired(g0: Links, g: Links, v: Node) {
    && g.Keys == g0.Keys && WellLinked(g)
    && forall a, b {:trigger Mult(g, a, b)} :: a in g && b in g && a.IsOut() && b.IsIn() ==> Intact(g0, g, v, a, b)
  }

  lemma RewiredSelf(g: Links, v: Node)
    requires WellLinked(g)
    ensures Rewired(g, g, v)
  {
    forall a, b | a in g && b in g ensures Intact(g, g, v, a, b) {
    }
  }

  lemma UnlinkRewired(g0: Links, g: Links, v: Node, a: Port, b: Port)
    requires Rewired(g0, g, v) && a in g && b in g && a.IsOut() && b.IsIn() && CanUnlink(g, a, b)
    requires a.node == v || b.node == v
    ensures Rewired(g0, Unlinked(g, a, b), v)
  {
    hide WellLinked, Adjacent;
    UnlinkedKeeps(g, a, b);
    UnlinkedCounts(g, a, b);
    var r := Unlinked(g, a, b);
    forall x, y | x in r && y in r && x.IsOut() && y.IsIn() ensures Intact(g0, r, v, x, y) {
      assert Intact(g0, g, v, x, y) by { assert Mult(g, x, y) == Mult(g, x, y); }
    }
  }

  lemma LinkRewired(g0: Links, g: Links, v: Node, a: Port, b: Port)
    requires Rewired(g0, g, v) && a in g && b in g && a.IsOut() && b.IsIn()
    requires a.node != v && b.node != v && Adjacent(g0, a.node, v) && Adjacent(g0, v, b.node)
    ensures Rewired(g0, Linked(g, a, b), v)
  {
    hide WellLinked, Adjacent;
    LinkedKeeps(g, a, b);
    LinkedCounts(g, a, b);
    var r := Linked(g, a, b);
    forall x, y | x in r && y in r && x.IsOut() && y.IsIn() ensures Intact(g0, r, v, x, y) {
      assert Intact(g0, g, v, x, y) by { assert Mult(g, x, y) == Mult(g, x, y); }
    }
  }

  // ------------------------------------------------------- reachability

  ghost predicate Walk(g: Links, p: seq<Node>) {
    p != [] && forall i {:trigger p[i]} :: 0 <= i < |p| - 1 ==> Adjacent(g, p[i], p[i + 1])
  }

  lemma AdjacentAfter(g0: Links, g: Links, v: Node, m: Node, n: Node)
    requires Rewired(g0, g, v) && WellLinked(g0) && Adjacent(g, m, n)
    ensures Adjacent(g0, m, n) || (Adjacent(g0, m, v) && Adjacent(g0, v, n))
  {
    var a, b :| a in g && b in g[a] && a.IsOut() && a.node == m && b.node == n;
    assert Mult(g, a, b) > 0;
    assert Intact(g0, g, v, a, b);
    if Mult(g0, a, b) > 0 {
      assert b in g0[a];
    }
  }

  // Rewiring creates no new way from one node to another, so no new cycle:
  // every walk of the new graph can be walked, with detours through v, in the
  // old one.
  lemma {:induction false} WalksAreOld(g0: Links, g: Links, v: Node, p: seq<Node>) returns (q: seq<Node>)
    requires Rewired(g0, g, v) && WellLinked(g0) && Walk(g, p)
    ensures Walk(g0, q) && |q| >= |p| && q[0] == p[0] && Last(q) == Last(p)
  {
    hide Rewired, WellLinked, Adjacent;
    if |p| == 1 {
      q := p;
    } else {
      forall i | 0 <= i < |Front(p)| - 1 ensures Adjacent(g, Front(p)[i], Front(p)[i + 1]) {
        assert Adjacent(g, p[i], p[i + 1]);
      }
      var r := WalksAreOld(g0, g, v, Front(p));
      assert Adjacent(g, p[|p| - 2], p[|p| - 2 + 1]);
      AdjacentAfter(g0, g, v, Last(r), Last(p));
      if Adjacent(g0, Last(r), Last(p)) {
        q := r + [Last(p)];
      } else {
        q := r + [v, Last(p)];
      }
      WalkExtend(g0, r, q);
    }
  }

  lemma WalkExtend(g: Links, r: seq<Node>, q: seq<Node>)
    requires Walk(g, r) && r <= q
    requires forall i {:trigger q[i]} :: |r| - 1 <= i < |q| - 1 ==> Adjacent(g, q[i], q[i + 1])
    ensures Walk(g, q)
  {
    hide Adjacent;
    forall i | 0 <= i < |q| - 1 ensures Adjacent(g, q[i], q[i + 1]) {
      if i < |r| - 1 {
        assert q[i] == r[i] && q[i + 1] == r[i + 1];
        assert Adjacent(g, r[i], r[i + 1]);
      }
    }
  }

  // ------------------------------------------------------------ clean states

  // Without control-to-data links: a data input has at most one peer, and it
  // is a data output.
  ghost predicate CleanData(g: Links) {
    forall x {:trigger g[x]} :: x in g && x.InData? ==> |g[x]| <= 1 && forall o :: o in g[x] ==> o.OutData?
  }
}
