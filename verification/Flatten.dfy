// Nested subgraphs: the flattened node order of AllGraphNodes, as a recursive
// preorder over the subgraph table.
module Flatten {
  import opened Links

  // The node list of every named subgraph.
  type Table = map<string, seq<Node>>

  // Finite nesting: the subgraphs named by the nodes ns rank below d, and the
  // subgraphs named inside a subgraph rank below it.
  ghost predicate Below(t: Table, rank: string -> nat, ns: seq<Node>, d: nat) {
    forall n, s :: n in ns && s in n.subgraphs && s in t ==> rank(s) < d
  }

  ghost predicate Nested(t: Table, rank: string -> nat) {
    forall s :: s in t ==> Below(t, rank, t[s], rank(s))
  }

  ghost predicate NamesBelow(t: Table, rank: string -> nat, names: seq<string>, d: nat) {
    forall s :: s in names && s in t ==> rank(s) < d
  }

  // Each node is followed by the flattened subgraphs it names, in order.
  ghost function FlattenNodes(t: Table, rank: string -> nat, ns: seq<Node>, d: nat): seq<Node>
    requires Nested(t, rank) && Below(t, rank, ns, d)
    decreases d, |ns|, 1
  {
    if ns == [] then []
    else FlattenNodes(t, rank, Front(ns), d) + Block(t, rank, Last(ns), d)
  }

  ghost function Block(t: Table, rank: string -> nat, n: Node, d: nat): seq<Node>
    requires Nested(t, rank) && NamesBelow(t, rank, n.subgraphs, d)
    decreases d, 0, |n.subgraphs| + 1
  {
    [n] + FlattenNames(t, rank, n.subgraphs, d)
  }

  ghost function FlattenNames(t: Table, rank: string -> nat, names: seq<string>, d: nat): seq<Node>
    requires Nested(t, rank) && NamesBelow(t, rank, names, d)
    decreases d, 0, |names|
  {
    if names == [] then []
    else
      var last := if Last(names) in t then FlattenNodes(t, rank, t[Last(names)], rank(Last(names))) else [];
      FlattenNames(t, rank, Front(names), d) + last
  }

  // The nodes the deque loop inserts for a node: one level, in name order.
  function Inserted(t: Table, names: seq<string>): seq<Node> {
    if names == [] then [] else Inserted(t, Front(names)) + if Last(names) in t then t[Last(names)] else []
  }

  // --------------------------------------------------------- independence of d

  lemma {:induction false} NamesLevel(t: Table, rank: string -> nat, names: seq<string>, d: nat, e: nat)
    requires Nested(t, rank) && NamesBelow(t, rank, names, d) && NamesBelow(t, rank, names, e)
    ensures FlattenNames(t, rank, names, d) == FlattenNames(t, rank, names, e)
  {
    if names != [] {
      NamesLevel(t, rank, Front(names), d, e);
    }
  }

  lemma {:induction false} NodesLevel(t: Table, rank: string -> nat, ns: seq<Node>, d: nat, e: nat)
    requires Nested(t, rank) && Below(t, rank, ns, d) && Below(t, rank, ns, e)
    ensures FlattenNodes(t, rank, ns, d) == FlattenNodes(t, rank, ns, e)
  {
    if ns != [] {
      NodesLevel(t, rank, Front(ns), d, e);
      NamesLevel(t, rank, Last(ns).subgraphs, d, e);
    }
  }

  // --------------------------------------------------------- the deque loop

  lemma {:induction false} NodesAppend(t: Table, rank: string -> nat, a: seq<Node>, b: seq<Node>, d: nat)
    requires Nested(t, rank) && Below(t, rank, a, d) && Below(t, rank, b, d)
    ensures Below(t, rank, a + b, d)
    ensures FlattenNodes(t, rank, a + b, d) == FlattenNodes(t, rank, a, d) + FlattenNodes(t, rank, b, d)
  {
    if b == [] {
      assert a + b == a;
    } else {
      assert Front(a + b) == a + Front(b) && Last(a + b) == Last(b);
      NodesAppend(t, rank, a, Front(b), d);
      Associative(FlattenNodes(t, rank, a, d), FlattenNodes(t, rank, Front(b), d), Block(t, rank, Last(b), d));
    }
  }

  // Flattening the inserted nodes is flattening the named subgraphs.
  lemma {:induction false} InsertedFlatten(t: Table, rank: string -> nat, names: seq<string>, d: nat)
    requires Nested(t, rank) && NamesBelow(t, rank, names, d)
    ensures Below(t, rank, Inserted(t, names), d)
    ensures FlattenNodes(t, rank, Inserted(t, names), d) == FlattenNames(t, rank, names, d)
  {
    if names != [] {
      InsertedFlatten(t, rank, Front(names), d);
      var s := Last(names);
      if s in t {
        assert Below(t, rank, t[s], d);
        NodesAppend(t, rank, Inserted(t, Front(names)), t[s], d);
        NodesLevel(t, rank, t[s], d, rank(s));
      } else {
        assert Inserted(t, names) == Inserted(t, Front(names));
      }
    }
  }

  // One turn: the first candidate is emitted and its subgraphs' nodes take its
  // place at the front.
  lemma DequeStep(t: Table, rank: string -> nat, c: seq<Node>, d: nat)
    requires Nested(t, rank) && Below(t, rank, c, d) && c != []
    ensures Below(t, rank, Inserted(t, c[0].subgraphs) + c[1..], d)
    ensures FlattenNodes(t, rank, c, d) == [c[0]] + FlattenNodes(t, rank, Inserted(t, c[0].subgraphs) + c[1..], d)
  {
    assert c == [c[0]] + c[1..];
    NodesAppend(t, rank, [c[0]], c[1..], d);
    assert FlattenNodes(t, rank, [c[0]], d) == Block(t, rank, c[0], d) by {
      assert Front([c[0]]) == [];
    }
    InsertedFlatten(t, rank, c[0].subgraphs, d);
    NodesAppend(t, rank, Inserted(t, c[0].subgraphs), c[1..], d);
    Associative([c[0]], FlattenNames(t, rank, c[0].subgraphs, d), FlattenNodes(t, rank, c[1..], d));
  }

  // ------------------------------------------------------------- order and ids

  lemma BeforeInside(u: seq<Node>, s: seq<Node>, v: seq<Node>, x: Node, y: Node)
    requires Before(s, x, y)
    ensures Before(u + s + v, x, y)
  {
    var i, j :| 0 <= i < j < |s| && s[i] == x && s[j] == y;
    assert (u + s + v)[|u| + i] == x && (u + s + v)[|u| + j] == y;
  }

  lemma BeforeAcross(u: seq<Node>, v: seq<Node>, x: Node, y: Node)
    requires x in u && y in v
    ensures Before(u + v, x, y)
  {
    var i :| 0 <= i < |u| && u[i] == x;
    var j :| 0 <= j < |v| && v[j] == y;
    assert (u + v)[i] == x && (u + v)[|u| + j] == y;
  }

  lemma {:induction false} NodesContain(t: Table, rank: string -> nat, ns: seq<Node>, d: nat)
    requires Nested(t, rank) && Below(t, rank, ns, d)
    ensures forall n :: n in ns ==> n in FlattenNodes(t, rank, ns, d)
  {
    if ns != [] {
      FrontLast(ns);
      NodesContain(t, rank, Front(ns), d);
      assert Last(ns) in Block(t, rank, Last(ns), d);
    }
  }

  // The direct nodes of a graph keep their relative order.
  lemma {:induction false} NodesKeepOrder(t: Table, rank: string -> nat, ns: seq<Node>, d: nat, i: nat, j: nat)
    requires Nested(t, rank) && Below(t, rank, ns, d) && i < j < |ns|
    ensures Before(FlattenNodes(t, rank, ns, d), ns[i], ns[j])
  {
    var a, b := FlattenNodes(t, rank, Front(ns), d), Block(t, rank, Last(ns), d);
    if j == |ns| - 1 {
      NodesContain(t, rank, Front(ns), d);
      assert ns[i] == Front(ns)[i] && ns[j] in b;
      BeforeAcross(a, b, ns[i], ns[j]);
    } else {
      NodesKeepOrder(t, rank, Front(ns), d, i, j);
      BeforeInside([], a, b, ns[i], ns[j]);
      assert [] + a + b == a + b;
    }
  }

  // A subgraph named by a node of the flattening is flattened, as a whole,
  // after that node.
  lemma {:induction false} SubgraphInNodes(t: Table, rank: string -> nat, ns: seq<Node>, d: nat, n: Node, s: string)
    returns (u: seq<Node>, v: seq<Node>)
    requires Nested(t, rank) && Below(t, rank, ns, d)
    requires n in FlattenNodes(t, rank, ns, d) && s in n.subgraphs && s in t
    ensures n in u && FlattenNodes(t, rank, ns, d) == u + FlattenNodes(t, rank, t[s], rank(s)) + v
    decreases d, |ns|, 1
  {
    var a, b := FlattenNodes(t, rank, Front(ns), d), Block(t, rank, Last(ns), d);
    if n in a {
      u, v := SubgraphInNodes(t, rank, Front(ns), d, n, s);
      v := v + b;
    } else if n in FlattenNames(t, rank, Last(ns).subgraphs, d) {
      u, v := SubgraphInNames(t, rank, Last(ns).subgraphs, d, n, s);
      u := a + [Last(ns)] + u;
    } else {
      u, v := NameInNames(t, rank, Last(ns).subgraphs, d, s);
      u := a + [n] + u;
    }
  }

  lemma {:induction false} SubgraphInNames(t: Table, rank: string -> nat, names: seq<string>, d: nat, n: Node,
                                           s: string)
    returns (u: seq<Node>, v: seq<Node>)
    requires Nested(t, rank) && NamesBelow(t, rank, names, d)
    requires n in FlattenNames(t, rank, names, d) && s in n.subgraphs && s in t
    ensures n in u && FlattenNames(t, rank, names, d) == u + FlattenNodes(t, rank, t[s], rank(s)) + v
    decreases d, 0, |names|
  {
    var a := FlattenNames(t, rank, Front(names), d);
    if n in a {
      u, v := SubgraphInNames(t, rank, Front(names), d, n, s);
      v := v + if Last(names) in t then FlattenNodes(t, rank, t[Last(names)], rank(Last(names))) else [];
    } else {
      var w, z := SubgraphInNodes(t, rank, t[Last(names)], rank(Last(names)), n, s);
      var x := FlattenNodes(t, rank, t[s], rank(s));
      assert a + (w + x + z) == a + w + x + z;
      u, v := a + w, z;
    }
  }

  lemma {:induction false} NameInNames(t: Table, rank: string -> nat, names: seq<string>, d: nat, s: string)
    returns (u: seq<Node>, v: seq<Node>)
    requires Nested(t, rank) && NamesBelow(t, rank, names, d) && s in names && s in t
    ensures FlattenNames(t, rank, names, d) == u + FlattenNodes(t, rank, t[s], rank(s)) + v
    decreases |names|
  {
    FrontLast(names);
    if Last(names) == s {
      u, v := FlattenNames(t, rank, Front(names), d), [];
    } else {
      u, v := NameInNames(t, rank, Front(names), d, s);
      v := v + if Last(names) in t then FlattenNodes(t, rank, t[Last(names)], rank(Last(names))) else [];
    }
  }

  // ------------------------------------------------ sorting inside the graphs

  ghost predicate SameTable(t: Table, r: Table) {
    t.Keys == r.Keys && forall s :: s in t ==> multiset(t[s]) == multiset(r[s])
  }

  lemma BelowPermuted(t: Table, r: Table, rank: string -> nat, a: seq<Node>, b: seq<Node>, d: nat)
    requires SameTable(t, r) && multiset(a) == multiset(b) && Below(t, rank, a, d)
    ensures Below(r, rank, b, d)
  {
    forall n | n in b ensures n in a {
      assert n in multiset(b);
    }
  }

  lemma NestedPermuted(t: Table, r: Table, rank: string -> nat)
    requires SameTable(t, r) && Nested(t, rank)
    ensures Nested(r, rank)
  {
    forall s | s in r ensures Below(r, rank, r[s], rank(s)) {
      BelowPermuted(t, r, rank, t[s], r[s], rank(s));
    }
  }

  lemma NodesSplit(t: Table, rank: string -> nat, p: seq<Node>, x: Node, q: seq<Node>, d: nat)
    requires Nested(t, rank) && Below(t, rank, p + [x] + q, d)
    ensures Below(t, rank, p, d) && Below(t, rank, q, d) && NamesBelow(t, rank, x.subgraphs, d)
    ensures FlattenNodes(t, rank, p + [x] + q, d) ==
      FlattenNodes(t, rank, p, d) + Block(t, rank, x, d) + FlattenNodes(t, rank, q, d)
  {
    assert forall n :: n in p ==> n in p + [x] + q;
    assert forall n :: n in q ==> n in p + [x] + q;
    assert x in p + [x] + q;
    NodesAppend(t, rank, p, [x], d);
    NodesAppend(t, rank, p + [x], q, d);
    assert Front([x]) == [] && FlattenNodes(t, rank, [x], d) == Block(t, rank, x, d);
  }

  lemma TakeOut<T>(a: seq<T>, b: seq<T>, p: seq<T>, x: T, q: seq<T>)
    requires a != [] && Last(a) == x && b == p + [x] + q && multiset(a) == multiset(b)
    ensures multiset(Front(a)) == multiset(p + q)
  {
    OneLess(p, q, x, b);
    LastOut(a);
  }

  lemma LastOut<T>(a: seq<T>)
    requires a != []
    ensures multiset(Front(a)) == multiset(a) - multiset{Last(a)}
  {
    assert a == Front(a) + [Last(a)];
  }

  lemma OneLess<T>(p: seq<T>, q: seq<T>, x: T, s: seq<T>)
    requires s == p + [x] + q
    ensures multiset(p + q) == multiset(s) - multiset{x}
  {
    assert multiset(s) == multiset(p) + multiset{x} + multiset(q);
  }

  lemma MovedBlock(t: Table, rank: string -> nat, p: seq<Node>, x: Node, q: seq<Node>, d: nat)
    requires Nested(t, rank) && Below(t, rank, p + [x] + q, d)
    ensures Below(t, rank, p + q, d) && NamesBelow(t, rank, x.subgraphs, d)
    ensures multiset(FlattenNodes(t, rank, p + [x] + q, d)) ==
      multiset(FlattenNodes(t, rank, p + q, d)) + multiset(Block(t, rank, x, d))
  {
    hide FlattenNodes, Block;
    NodesSplit(t, rank, p, x, q, d);
    NodesAppend(t, rank, p, q, d);
  }

  // Reordering a node list reorders its flattening.
  lemma {:induction false} ListPermuted(t: Table, rank: string -> nat, a: seq<Node>, b: seq<Node>, d: nat)
    requires Nested(t, rank) && Below(t, rank, a, d) && Below(t, rank, b, d) && multiset(a) == multiset(b)
    ensures multiset(FlattenNodes(t, rank, a, d)) == multiset(FlattenNodes(t, rank, b, d))
  {
    if a == [] {
      assert |b| == |multiset(b)| == 0;
    } else {
      FrontLast(a);
      var x := Last(a);
      assert x in multiset(b);
      var i :| 0 <= i < |b| && b[i] == x;
      var p, q := b[..i], b[i + 1..];
      assert b == p + [x] + q;
      TakeOut(a, b, p, x, q);
      MovedBlock(t, rank, p, x, q, d);
      ListPermuted(t, rank, Front(a), p + q, d);
    }
  }

  lemma {:induction false} NodesPermuted(t: Table, r: Table, rank: string -> nat, ns: seq<Node>, d: nat)
    requires SameTable(t, r) && Nested(t, rank) && Nested(r, rank) && Below(t, rank, ns, d) && Below(r, rank, ns, d)
    ensures multiset(FlattenNodes(t, rank, ns, d)) == multiset(FlattenNodes(r, rank, ns, d))
    decreases d, |ns|, 1
  {
    if ns != [] {
      NodesPermuted(t, r, rank, Front(ns), d);
      NamesPermuted(t, r, rank, Last(ns).subgraphs, d);
    }
  }

  lemma {:induction false} NamesPermuted(t: Table, r: Table, rank: string -> nat, names: seq<string>, d: nat)
    requires SameTable(t, r) && Nested(t, rank) && Nested(r, rank)
    requires NamesBelow(t, rank, names, d) && NamesBelow(r, rank, names, d)
    ensures multiset(FlattenNames(t, rank, names, d)) == multiset(FlattenNames(r, rank, names, d))
    decreases d, 0, |names|
  {
    if names != [] {
      NamesPermuted(t, r, rank, Front(names), d);
      var s := Last(names);
      if s in t {
        BelowPermuted(r, t, rank, r[s], r[s], rank(s));
        ListPermuted(t, rank, t[s], r[s], rank(s));
        NodesPermuted(t, r, rank, r[s], rank(s));
      }
    }
  }

  // Sorting the root and every subgraph keeps the flattened nodes.
  lemma FlattenPermuted(t: Table, r: Table, rank: string -> nat, a: seq<Node>, b: seq<Node>, d: nat)
    requires SameTable(t, r) && Nested(t, rank) && Below(t, rank, a, d) && multiset(a) == multiset(b)
    ensures Nested(r, rank) && Below(r, rank, b, d)
    ensures multiset(FlattenNodes(r, rank, b, d)) == multiset(FlattenNodes(t, rank, a, d))
  {
    NestedPermuted(t, r, rank);
    BelowPermuted(t, t, rank, a, b, d);
    BelowPermuted(t, r, rank, a, b, d);
    ListPermuted(t, rank, a, b, d);
    NodesPermuted(t, r, rank, b, d);
  }

  // ------------------------------------------------- the names a walk meets

  lemma {:induction false} InsertedFirst(t: Table, s: string, names: seq<string>)
    ensures Inserted(t, [s] + names) == (if s in t then t[s] else []) + Inserted(t, names)
    ensures FoundNames(t, [s] + names) == (if s in t then [s] else []) + FoundNames(t, names)
  {
    if names == [] {
      assert Front([s] + names) == [];
    } else {
      assert Front([s] + names) == [s] + Front(names);
      InsertedFirst(t, s, Front(names));
    }
  }

  lemma RankBound(t: Table, rank: string -> nat, d: nat) returns (e: nat)
    ensures e >= d && forall s :: s in t ==> rank(s) < e
  {
    e := d;
    var left := t.Keys;
    while left != {}
      invariant e >= d && left <= t.Keys
      invariant forall s :: s in t && s !in left ==> rank(s) < e
    {
      var s :| s in left;
      left := left - {s};
      e := e + rank(s) + 1;
    }
  }

  function FoundNames(t: Table, names: seq<string>): seq<string> {
    if names == [] then [] else FoundNames(t, Front(names)) + if Last(names) in t then [Last(names)] else []
  }

  // The subgraphs in the order in which the deque loop meets them: node by node,
  // those of one node from the back.
  function AllFound(t: Table, ns: seq<Node>): seq<string> {
    if ns == [] then [] else AllFound(t, Front(ns)) + Reversed(FoundNames(t, Last(ns).subgraphs))
  }

  lemma {:induction false} ReversedFirst<T>(x: T, s: seq<T>)
    ensures Reversed([x] + s) == Reversed(s) + [x]
  {
    if s == [] {
      assert Front([x] + s) == [];
    } else {
      assert Front([x] + s) == [x] + Front(s) && Last([x] + s) == Last(s);
      ReversedFirst(x, Front(s));
    }
  }
}
