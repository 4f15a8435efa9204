// What the conditions of the sorts mean in terms of single edges, paths and
// cycles.
module TopoMeaning {
  import opened Links
  import opened Degrees
  import opened TopoOrder

  // ---------------------------------------------------------- single edges

  // Entry k of the in port q comes from m and is counted: only the data edge of
  // a NextIteration node is not, and only as the first peer of a data input.
  ghost predicate CountedEntry(g: Links, q: Port, k: nat, m: Node) {
    k < |At(g, q)| && At(g, q)[k].node == m && !(k == 0 && q.InData? && At(g, q)[k].OutData? && IsNextIteration(m))
  }

  lemma {:induction false} HitsPositive(s: seq<Port>, m: Node)
    ensures Hits(s, m) > 0 <==> exists k :: 0 <= k < |s| && s[k].node == m
  {
    if s != [] {
      HitsPositive(Front(s), m);
      if Hits(Front(s), m) > 0 {
        var k :| 0 <= k < |Front(s)| && Front(s)[k].node == m;
        assert s[k].node == m;
      }
      if k :| 0 <= k < |s| && s[k].node == m {
        assert k == |s| - 1 || Front(s)[k].node == m;
      }
    }
  }

  lemma {:induction false} HitsSplit(s: seq<Port>, m: Node)
    requires s != []
    ensures Hits(s, m) == Hits(s[1..], m) + if s[0].node == m then 1 else 0
  {
    if |s| > 1 {
      HitsSplit(Front(s), m);
      assert Front(s[1..]) == Front(s)[1..];
    }
  }

  lemma CountedAtPort(g: Links, q: Port, m: Node)
    ensures Hits(At(g, q), m) - Back(g, q, m) > 0 <==> exists k :: CountedEntry(g, q, k, m)
  {
    var s := At(g, q);
    HitsPositive(s, m);
    if Back(g, q, m) == 1 {
      HitsSplit(s, m);
      HitsPositive(s[1..], m);
      if exists k :: 0 <= k < |s[1..]| && s[1..][k].node == m {
        var k :| 0 <= k < |s[1..]| && s[1..][k].node == m;
        assert s[k + 1].node == m && CountedEntry(g, q, k + 1, m);
      }
      if k :| CountedEntry(g, q, k, m) {
        assert k > 0 && s[1..][k - 1].node == m;
      }
    } else if Hits(s, m) > 0 {
      var k :| 0 <= k < |s| && s[k].node == m;
      assert CountedEntry(g, q, k, m);
    }
  }

  lemma {:induction false} CountedAtPorts(g: Links, qs: seq<Port>, m: Node)
    ensures CountedAt(g, qs, m) > 0 <==> exists q, k :: q in qs && CountedEntry(g, q, k, m)
  {
    if qs != [] {
      FrontLast(qs);
      CountedAtPorts(g, Front(qs), m);
      CountedAtPort(g, Last(qs), m);
      CountedNonNegative(g, Front(qs), m);
      CountedNonNegative(g, [Last(qs)], m);
      assert CountedAt(g, [Last(qs)], m) == Hits(At(g, Last(qs)), m) - Back(g, Last(qs), m) by {
        assert Front([Last(qs)]) == [];
      }
    }
  }

  // m feeds n exactly when some entry of some in port of n is a counted one
  // from m, in every state.
  lemma FeedsMeaning(g: Links, m: Node, n: Node)
    ensures Feeds(g, m, n) <==> exists q, k :: q in InPorts(n) && CountedEntry(g, q, k, m)
  {
    CountedAtPorts(g, InPorts(n), m);
  }

  // A data source is the first peer of its data input, so every data edge of a
  // NextIteration node is left out of the count.
  ghost predicate DataSourcesFirst(g: Links) {
    forall q, k {:trigger g[q][k]} :: q in g && q.InData? && 0 < k < |g[q]| ==> !g[q][k].OutData?
  }

  ghost predicate LoopEntry(g: Links, q: Port, k: nat)
    requires k < |At(g, q)|
  {
    q.InData? && At(g, q)[k].OutData? && IsNextIteration(At(g, q)[k].node)
  }

  lemma CountedUnlessLoop(g: Links, q: Port, k: nat)
    requires DataSourcesFirst(g) && q in g && k < |At(g, q)|
    ensures CountedEntry(g, q, k, At(g, q)[k].node) <==> !LoopEntry(g, q, k)
  {
    assert k > 0 && q.InData? ==> !g[q][k].OutData?;
  }

  // Linking and unlinking keep it so: LinkTo refuses an occupied data input.
  lemma LinkedKeepsFirst(g: Links, a: Port, b: Port)
    requires DataSourcesFirst(g) && a in g && b in g && a.IsOut() && b.IsIn() && CanLink(g, a, b)
    ensures DataSourcesFirst(Linked(g, a, b))
  {
    var r := Linked(g, a, b);
    forall q, k | q in r && q.InData? && 0 < k < |r[q]| ensures !r[q][k].OutData? {
      if k < |g[q]| {
        assert r[q][k] == g[q][k];
      }
    }
  }

  lemma UnlinkedKeepsFirst(g: Links, a: Port, b: Port)
    requires DataSourcesFirst(g) && a in g && b in g && a.IsOut() && b.IsIn()
    ensures DataSourcesFirst(Unlinked(g, a, b))
  {
    var r := Unlinked(g, a, b);
    forall q, k | q in r && q.InData? && 0 < k < |r[q]| ensures !r[q][k].OutData? {
      if q == b {
        var i := RemovedFrom(g[b], a, k);
        assert r[q][k] == g[q][i];
      }
    }
  }

  // Entry k after a removal was entry k or k + 1.
  lemma {:induction false} RemovedFrom(s: seq<Port>, x: Port, k: nat) returns (i: nat)
    requires k < |RemoveFirst(s, x)|
    ensures k <= i < |s| && RemoveFirst(s, x)[k] == s[i]
  {
    if s[0] == x {
      i := k + 1;
    } else if k == 0 {
      i := 0;
    } else {
      i := RemovedFrom(s[1..], x, k - 1);
      i := i + 1;
    }
  }

  // --------------------------------------------------------- paths and cycles

  ghost predicate Path(g: Links, nodes: seq<Node>, p: seq<Node>) {
    && p != [] && (forall i :: 0 <= i < |p| ==> p[i] in nodes)
    && forall i :: 0 <= i < |p| - 1 ==> Feeds(g, p[i], p[i + 1])
  }

  lemma {:induction false} PathReaches(g: Links, nodes: seq<Node>, p: seq<Node>)
    requires Path(g, nodes, p)
    ensures Reaches(g, nodes, p[0], Last(p))
  {
    forall X: set<Node> | X <= NodeSet(nodes) && Last(p) in X && ClosedUnderPredecessors(g, nodes, X)
      ensures p[0] in X
    {
      PathInside(g, nodes, p, X, |p| - 1);
    }
  }

  lemma {:induction false} PathInside(g: Links, nodes: seq<Node>, p: seq<Node>, X: set<Node>, i: nat)
    requires Path(g, nodes, p) && X <= NodeSet(nodes) && ClosedUnderPredecessors(g, nodes, X)
    requires i < |p| && p[i] in X
    ensures p[0] in X
  {
    if i > 0 {
      assert Feeds(g, p[i - 1], p[i - 1 + 1]);
      PathInside(g, nodes, p, X, i - 1);
    }
  }

  // Reaching along counted edges is having a path of counted edges.
  lemma ReachesIffPath(g: Links, nodes: seq<Node>, n: Node, m: Node)
    requires n in nodes && m in nodes
    ensures Reaches(g, nodes, n, m) <==> exists p :: Path(g, nodes, p) && p[0] == n && Last(p) == m
  {
    if p :| Path(g, nodes, p) && p[0] == n && Last(p) == m {
      PathReaches(g, nodes, p);
    }
    if Reaches(g, nodes, n, m) {
      var X := set x | x in nodes && exists p :: Path(g, nodes, p) && p[0] == x && Last(p) == m;
      assert m in X by { assert Path(g, nodes, [m]) && [m][0] == m && Last([m]) == m; }
      forall y, x | y in nodes && x in X && Feeds(g, y, x) ensures y in X {
        var p :| Path(g, nodes, p) && p[0] == x && Last(p) == m;
        var r := [y] + p;
        assert Path(g, nodes, r) by {
          forall i | 0 <= i < |r| - 1 ensures Feeds(g, r[i], r[i + 1]) {
            if i > 0 { assert Feeds(g, p[i - 1], p[i - 1 + 1]); }
          }
        }
        assert r[0] == y && Last(r) == m;
      }
      assert ClosedUnderPredecessors(g, nodes, X);
      assert n in X;
    }
  }

  ghost predicate Cycle(g: Links, nodes: seq<Node>, p: seq<Node>) {
    Path(g, nodes, p) && |p| >= 2 && p[0] == Last(p)
  }

  lemma CycleRefutes(g: Links, nodes: seq<Node>, p: seq<Node>)
    requires Cycle(g, nodes, p)
    ensures !Acyclic(g, nodes)
  {
    var X := NodeSet(p);
    assert p[0] in X;
    forall n {:trigger FedFrom(g, X, n)} | n in X ensures FedFrom(g, X, n) {
      var i :| 0 <= i < |p| && p[i] == n;
      var j := if i == 0 then |p| - 1 else i;
      assert Feeds(g, p[j - 1], p[j - 1 + 1]) && p[j - 1] in X;
    }
    NoEntry(g, nodes, X);
  }

  lemma SomePredecessor(g: Links, X: set<Node>, n: Node) returns (m: Node)
    requires !HasEntry(g, X) && n in X
    ensures m in X && Feeds(g, m, n)
  {
    assert FedFrom(g, X, n);
    m :| m in X && Feeds(g, m, n);
  }

  lemma PathAppend(g: Links, nodes: seq<Node>, q: seq<Node>, n: Node)
    requires Path(g, nodes, q) && n in nodes && Feeds(g, Last(q), n)
    ensures Path(g, nodes, q + [n])
  {
    var p := q + [n];
    forall i | 0 <= i < |p| - 1 ensures Feeds(g, p[i], p[i + 1]) {
      if i < |q| - 1 { assert Feeds(g, q[i], q[i + 1]); }
    }
  }

  // In a set where everyone has a predecessor one can walk backwards forever.
  lemma {:induction false} WalkBackTo(g: Links, nodes: seq<Node>, X: set<Node>, n: Node, k: nat) returns (p: seq<Node>)
    requires X <= NodeSet(nodes) && !HasEntry(g, X) && n in X
    ensures |p| == k + 1 && Path(g, nodes, p) && Last(p) == n && forall x :: x in p ==> x in X
  {
    hide HasEntry, Feeds;
    if k == 0 {
      p := [n];
    } else {
      var m := SomePredecessor(g, X, n);
      var q := WalkBackTo(g, nodes, X, m, k - 1);
      PathAppend(g, nodes, q, n);
      p := q + [n];
    }
  }

  lemma {:induction false} Pigeonhole(p: seq<Node>, X: set<Node>) returns (i: nat, j: nat)
    requires |p| > |X| && forall x :: x in p ==> x in X
    ensures i < j < |p| && p[i] == p[j]
  {
    var x := Last(p);
    if x in Front(p) {
      j := |p| - 1;
      i :| 0 <= i < j && p[i] == x;
    } else {
      FrontLast(p);
      i, j := Pigeonhole(Front(p), X - {x});
    }
  }

  lemma CyclicHasCycle(g: Links, nodes: seq<Node>, X: set<Node>) returns (c: seq<Node>)
    requires X <= NodeSet(nodes) && X != {} && !HasEntry(g, X)
    ensures Cycle(g, nodes, c)
  {
    hide HasEntry, Feeds;
    var n :| n in X;
    var p := WalkBackTo(g, nodes, X, n, |X|);
    var i, j := Pigeonhole(p, X);
    c := p[i..j + 1];
    forall k | 0 <= k < |c| - 1 ensures Feeds(g, c[k], c[k + 1]) {
      assert Feeds(g, p[i + k], p[i + k + 1]);
    }
  }

  // The condition of the sorts is the absence of a cycle of counted edges.
  lemma AcyclicIffNoCycle(g: Links, nodes: seq<Node>)
    ensures Acyclic(g, nodes) <==> forall p :: !Cycle(g, nodes, p)
  {
    hide Cycle, HasEntry;
    if p :| Cycle(g, nodes, p) {
      CycleRefutes(g, nodes, p);
    }
    if !Acyclic(g, nodes) {
      var X: set<Node> :| X <= NodeSet(nodes) && X != {} && !HasEntry(g, X);
      var c := CyclicHasCycle(g, nodes, X);
    }
  }
}
