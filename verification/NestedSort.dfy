// Sorting a root graph together with its subgraphs, and renumbering all nodes
// along the flattened order.
module NestedSort {
  import opened Links
  import opened Anchors
  import opened Degrees
  import opened TopoOrder
  import opened Targets
  import opened Flatten
  import opened ComputeGraphs

  ghost function TableOf(m: map<string, ComputeGraph>): Table
    reads m.Values`nodes
  {
    map s | s in m :: m[s].nodes
  }

  // The subgraphs of these names.
  ghost predicate Met(m: map<string, ComputeGraph>, found: seq<string>, subgraphs: seq<ComputeGraph>) {
    |found| == |subgraphs| && forall i :: 0 <= i < |found| ==> found[i] in m && subgraphs[i] == m[found[i]]
  }

  lemma MetAppend(m: map<string, ComputeGraph>, found: seq<string>, subgraphs: seq<ComputeGraph>, s: string)
    requires Met(m, found, subgraphs) && s in m
    ensures Met(m, found + [s], subgraphs + [m[s]])
  {
  }

  // Puts the nodes of the named subgraphs in front of the candidates.
  method InsertSubgraphs(m: map<string, ComputeGraph>, names: seq<string>, c: seq<Node>, subs: seq<ComputeGraph>,
                         ghost met: seq<string>)
    returns (candidates: seq<Node>, subgraphs: seq<ComputeGraph>)
    requires Met(m, met, subs)
    ensures candidates == Inserted(TableOf(m), names) + c
    ensures Met(m, met + Reversed(FoundNames(TableOf(m), names)), subgraphs)
  {
    hide Inserted, FoundNames, Met, Reversed;
    ghost var t := TableOf(m);
    candidates, subgraphs := c, subs;
    var k := |names|;
    InsertedNone(t);
    assert names[k..] == [] && met + [] == met;
    while k > 0
      invariant k <= |names|
      invariant candidates == Inserted(t, names[k..]) + c
      invariant Met(m, met + Reversed(FoundNames(t, names[k..])), subgraphs)
    {
      k := k - 1;
      assert names[k..] == [names[k]] + names[k + 1..];
      InsertedFirst(t, names[k], names[k + 1..]);
      ghost var behind := FoundNames(t, names[k + 1..]);
      if names[k] in m {
        var subgraph := m[names[k]];
        MetAppend(m, met + Reversed(behind), subgraphs, names[k]);
        ReversedFirst(names[k], behind);
        Associative(met, Reversed(behind), [names[k]]);
        subgraphs := subgraphs + [subgraph];
        candidates := subgraph.nodes + candidates;
      } else {
        assert [] + behind == behind;
      }
    }
    assert names[0..] == names;
  }

  lemma InsertedNone(t: Table)
    ensures Inserted(t, []) == [] && Reversed(FoundNames(t, [])) == []
  {
  }

  // The deque loop computes the preorder flattening and terminates because
  // every turn emits one of its nodes.
  method AllGraphNodes(root: ComputeGraph, ghost rank: string -> nat, ghost d: nat)
    returns (all: seq<Node>, subgraphs: seq<ComputeGraph>)
    requires Nested(TableOf(root.namesToSubgraph), rank)
    requires Below(TableOf(root.namesToSubgraph), rank, root.nodes, d)
    ensures all == FlattenNodes(TableOf(root.namesToSubgraph), rank, root.nodes, d)
    ensures Met(root.namesToSubgraph, AllFound(TableOf(root.namesToSubgraph), all), subgraphs)
  {
    hide FlattenNodes, Nested, Met, Reversed, FoundNames;
    var m := root.namesToSubgraph;
    ghost var t := TableOf(m);
    ghost var e := RankBound(t, rank, d);
    all, subgraphs := [], [];
    MetNone(m);
    var candidates := root.nodes;
    ghost var goal := FlattenNodes(t, rank, candidates, e);
    assert [] + goal == goal;
    while candidates != []
      invariant Below(t, rank, candidates, e)
      invariant goal == all + FlattenNodes(t, rank, candidates, e)
      invariant Met(m, AllFound(t, all), subgraphs)
      decreases |goal| - |all|
    {
      DequeStep(t, rank, candidates, e);
      var node := candidates[0];
      assert Front(all + [node]) == all;
      ghost var rest := FlattenNodes(t, rank, Inserted(t, node.subgraphs) + candidates[1..], e);
      Associative(all, [node], rest);
      candidates, subgraphs := InsertSubgraphs(m, node.subgraphs, candidates[1..], subgraphs, AllFound(t, all));
      all := all + [node];
    }
    FlattenNone(t, rank, e);
    NodesLevel(t, rank, root.nodes, d, e);
  }

  lemma MetLength(m: map<string, ComputeGraph>, found: seq<string>, subgraphs: seq<ComputeGraph>)
    requires Met(m, found, subgraphs)
    ensures |found| == |subgraphs|
  {
  }

  lemma MetNone(m: map<string, ComputeGraph>)
    ensures Met(m, [], [])
  {
  }

  lemma FlattenNone(t: Table, rank: string -> nat, d: nat)
    requires Nested(t, rank)
    ensures FlattenNodes(t, rank, [], d) == []
  {
  }

  // ------------------------------------------------------------ the whole sort

  // One graph has been sorted: its list was `was` and is now `now`.
  ghost predicate SortedGraph(g: Links, was: seq<Node>, now: seq<Node>) {
    multiset(now) == multiset(was) && (LoopsReturn(g, was) ==> TopologicalOrder(g, was, now))
  }

  lemma BeforeIds(all: seq<Node>, x: Node, y: Node)
    requires Before(all, x, y) && forall i :: 0 <= i < |all| ==> all[i].id == i
    ensures x.id < y.id
  {
  }

  // After renumbering, a sorted subgraph has ids above its owner's, and its
  // counted edges increase.
  lemma SubgraphIds(g: Links, t: Table, rank: string -> nat, ns: seq<Node>, d: nat, n: Node, s: string, was: seq<Node>)
    requires Nested(t, rank) && Below(t, rank, ns, d)
    requires forall i :: 0 <= i < |FlattenNodes(t, rank, ns, d)| ==> FlattenNodes(t, rank, ns, d)[i].id == i
    requires n in FlattenNodes(t, rank, ns, d) && s in n.subgraphs && s in t
    requires SortedGraph(g, was, t[s])
    ensures forall x :: x in t[s] ==> n.id < x.id
    ensures LoopsReturn(g, was) ==> IdsIncrease(g, t[s])
  {
    hide SortedGraph, TopologicalOrder, LoopsReturn, FlattenNodes, Feeds;
    var all := FlattenNodes(t, rank, ns, d);
    var u, v := SubgraphInNodes(t, rank, ns, d, n, s);
    var w := FlattenNodes(t, rank, t[s], rank(s));
    NodesContain(t, rank, t[s], rank(s));
    forall x | x in t[s] ensures n.id < x.id {
      BeforeAcross(u, w, n, x);
      BeforeInside([], u + w, v, n, x);
      assert [] + (u + w) + v == all;
      BeforeIds(all, n, x);
    }
    if LoopsReturn(g, was) {
      forall x, y | x in t[s] && y in t[s] && Feeds(g, x, y) ensures x.id < y.id {
        var i, j := OrderedPair(g, was, t[s], x, y);
        NodesKeepOrder(t, rank, t[s], rank(s), i, j);
        BeforeInside(u, w, v, x, y);
        BeforeIds(all, x, y);
      }
    }
  }

  lemma OrderedPair(g: Links, was: seq<Node>, now: seq<Node>, x: Node, y: Node) returns (i: nat, j: nat)
    requires SortedGraph(g, was, now) && LoopsReturn(g, was) && x in now && y in now && Feeds(g, x, y)
    ensures i < j < |now| && now[i] == x && now[j] == y
  {
    i :| 0 <= i < |now| && now[i] == x;
    j :| 0 <= j < |now| && now[j] == y;
  }

  lemma RootIds(g: Links, t: Table, rank: string -> nat, ns: seq<Node>, d: nat, was: seq<Node>)
    requires Nested(t, rank) && Below(t, rank, ns, d)
    requires forall i :: 0 <= i < |FlattenNodes(t, rank, ns, d)| ==> FlattenNodes(t, rank, ns, d)[i].id == i
    requires SortedGraph(g, was, ns) && LoopsReturn(g, was)
    ensures IdsIncrease(g, ns)
  {
    hide SortedGraph, TopologicalOrder, LoopsReturn, FlattenNodes, Feeds;
    forall x, y | x in ns && y in ns && Feeds(g, x, y) ensures x.id < y.id {
      var i, j := OrderedPair(g, was, ns, x, y);
      NodesKeepOrder(t, rank, ns, d, i, j);
      BeforeIds(FlattenNodes(t, rank, ns, d), x, y);
    }
  }

  // Root and subgraphs: distinct graphs over one anchor state, every named
  // subgraph on the list.
  ghost predicate Family(root: ComputeGraph)
    reads root, root.subGraphs, root.anchors.Values
  {
    && root.Valid()
    && (forall j, k :: 0 <= j < k < |root.subGraphs| ==> root.subGraphs[j] != root.subGraphs[k])
    && (forall sub :: sub in root.subGraphs ==>
         sub != root && sub.anchors == root.anchors && Anchored(sub.anchors) && GraphOk(View(root.anchors), sub.nodes))
    && (forall s :: s in root.namesToSubgraph ==> root.namesToSubgraph[s] in root.subGraphs)
  }

  ghost function NodeLists(subs: seq<ComputeGraph>): (r: seq<seq<Node>>)
    reads subs
    ensures |r| == |subs| && forall k :: 0 <= k < |subs| ==> r[k] == subs[k].nodes
  {
    seq(|subs|, k reads subs requires 0 <= k < |subs| => subs[k].nodes)
  }

  // A reason to refuse to sort this list, and what success rules out.
  ghost predicate Refused(g: Links, nodes: seq<Node>, verifyIsolated: bool) {
    AnyIsolated(g, nodes, verifyIsolated) || !Acyclic(g, nodes)
  }

  ghost predicate Accepted(g: Links, nodes: seq<Node>, verifyIsolated: bool) {
    !AnyIsolated(g, nodes, verifyIsolated) && (LoopsReturn(g, nodes) ==> Acyclic(g, nodes))
  }

  ghost predicate AllAccepted(g: Links, lists: seq<seq<Node>>, verifyIsolated: bool) {
    forall k :: 0 <= k < |lists| ==> Accepted(g, lists[k], verifyIsolated)
  }

  ghost predicate AnyRefused(g: Links, lists: seq<seq<Node>>, verifyIsolated: bool) {
    exists k :: 0 <= k < |lists| && Refused(g, lists[k], verifyIsolated)
  }

  lemma SortedFrom(g: Links, was: seq<Node>, verifyIsolated: bool, ok: bool, now: seq<Node>)
    requires SortResult(g, was, verifyIsolated, ok, now)
    ensures ok ==> SortedGraph(g, was, now) && Accepted(g, was, verifyIsolated)
    ensures !ok ==> Refused(g, was, verifyIsolated)
  {
  }

  // What sorting a list of nodes needs.
  ghost predicate SubReady(g: Links, nodes: seq<Node>, useBfs: bool, allNodes: set<Node>) {
    && CountersFit(g, nodes) && (useBfs ==> TargetNamesApart(g, nodes))
    && forall n :: n in nodes ==> n in allNodes
  }

  // The first k lists have been sorted, the other ones are as they were.
  ghost predicate SortedUpTo(g: Links, was: seq<seq<Node>>, now: seq<seq<Node>>, k: nat, verifyIsolated: bool) {
    && k <= |was| == |now|
    && (forall j :: 0 <= j < k ==> SortedGraph(g, was[j], now[j]) && Accepted(g, was[j], verifyIsolated))
    && (forall j :: k <= j < |was| ==> now[j] == was[j])
  }

  // One subgraph; the other ones stay.
  method SortSubgraph(root: ComputeGraph, sub: ComputeGraph, ghost k: nat, useBfs: bool, verifyIsolated: bool,
                      ghost allNodes: set<Node>) returns (ok: bool)
    requires Family(root) && k < |root.subGraphs| && sub == root.subGraphs[k]
    requires SubReady(View(root.anchors), sub.nodes, useBfs, allNodes)
    modifies sub`nodes, sub`isValid, allNodes`id
    ensures Family(root) && View(root.anchors) == old(View(root.anchors))
    ensures NodeLists(root.subGraphs) == old(NodeLists(root.subGraphs))[k := sub.nodes]
    ensures ok ==> SortedGraph(View(root.anchors), old(sub.nodes), sub.nodes)
    ensures if ok then Accepted(View(root.anchors), old(sub.nodes), verifyIsolated)
            else Refused(View(root.anchors), old(sub.nodes), verifyIsolated)
  {
    hide SortedGraph, SortResult, Refused, Accepted, GraphOk, CountersFit, View, Anchored, IdsIncrease, LoopsReturn,
      TargetNamesApart, AnyIsolated, NoLoopNodes, Acyclic;
    ghost var was := sub.nodes;
    ok := sub.TopologicalSortingGraph(useBfs, verifyIsolated, false);
    SortedFrom(View(root.anchors), was, verifyIsolated, ok, sub.nodes);
  }

  // Sorts the subgraphs one after the other, stopping at the first refusal.
  method SortSubgraphs(root: ComputeGraph, useBfs: bool, verifyIsolated: bool, ghost allNodes: set<Node>)
      returns (ok: bool)
    requires Family(root)
    requires forall sub :: sub in root.subGraphs ==> CountersFit(View(root.anchors), sub.nodes)
    requires useBfs ==> forall sub :: sub in root.subGraphs ==> TargetNamesApart(View(root.anchors), sub.nodes)
    requires forall sub :: sub in root.subGraphs ==> forall n :: n in sub.nodes ==> n in allNodes
    modifies root.subGraphs`nodes, root.subGraphs`isValid, allNodes`id
    ensures Family(root) && View(root.anchors) == old(View(root.anchors))
    ensures ok ==> forall k :: 0 <= k < |root.subGraphs| ==>
      SortedGraph(View(root.anchors), old(NodeLists(root.subGraphs))[k], root.subGraphs[k].nodes)
    ensures !ok ==> AnyRefused(View(root.anchors), old(NodeLists(root.subGraphs)), verifyIsolated)
    ensures ok ==> AllAccepted(View(root.anchors), old(NodeLists(root.subGraphs)), verifyIsolated)
  {
    hide SortedGraph, Refused, Accepted, GraphOk, CountersFit, View, Anchored, TargetNamesApart, AnyRefused;
    ghost var g, lists := View(root.anchors), NodeLists(root.subGraphs);
    forall k | 0 <= k < |lists| ensures SubReady(g, lists[k], useBfs, allNodes) {
      assert root.subGraphs[k] in root.subGraphs;
    }
    hide Family, SubReady;
    ok := SortEach(root, useBfs, verifyIsolated, g, lists, allNodes);
  }

  method SortEach(root: ComputeGraph, useBfs: bool, verifyIsolated: bool, ghost g: Links, ghost lists: seq<seq<Node>>,
                  ghost allNodes: set<Node>) returns (ok: bool)
    requires Family(root) && View(root.anchors) == g && NodeLists(root.subGraphs) == lists
    requires forall k :: 0 <= k < |lists| ==> SubReady(g, lists[k], useBfs, allNodes)
    modifies root.subGraphs`nodes, root.subGraphs`isValid, allNodes`id
    ensures Family(root) && View(root.anchors) == g
    ensures ok ==> SortedUpTo(g, lists, NodeLists(root.subGraphs), |lists|, verifyIsolated)
    ensures !ok ==> AnyRefused(g, lists, verifyIsolated)
  {
    hide Family, SubReady, SortedUpTo, SortedGraph, Accepted, Refused, AnyRefused, View;
    ghost var now := lists;
    var k := 0;
    NoneSorted(g, lists, verifyIsolated);
    while k < |root.subGraphs|
      invariant k <= |root.subGraphs| && Family(root) && View(root.anchors) == g
      invariant NodeLists(root.subGraphs) == now && SortedUpTo(g, lists, now, k, verifyIsolated)
      decreases |root.subGraphs| - k
    {
      var sub := root.subGraphs[k];
      NextToSort(g, lists, now, k, verifyIsolated);
      assert sub.nodes == lists[k];
      ok := SortSubgraph(root, sub, k, useBfs, verifyIsolated, allNodes);
      if !ok {
        return;
      }
      OneMoreSorted(g, lists, now, k, sub.nodes, verifyIsolated);
      now := now[k := sub.nodes];
      k := k + 1;
    }
    ok := true;
  }

  lemma NoneSorted(g: Links, was: seq<seq<Node>>, verifyIsolated: bool)
    ensures SortedUpTo(g, was, was, 0, verifyIsolated)
  {
  }

  lemma NextToSort(g: Links, was: seq<seq<Node>>, now: seq<seq<Node>>, k: nat, verifyIsolated: bool)
    requires SortedUpTo(g, was, now, k, verifyIsolated) && k < |was|
    ensures now[k] == was[k] && (Refused(g, was[k], verifyIsolated) ==> AnyRefused(g, was, verifyIsolated))
  {
    hide SortedGraph, Accepted, Refused;
  }

  lemma OneMoreSorted(g: Links, was: seq<seq<Node>>, now: seq<seq<Node>>, k: nat, next: seq<Node>,
                      verifyIsolated: bool)
    requires SortedUpTo(g, was, now, k, verifyIsolated) && k < |was|
    requires SortedGraph(g, was[k], next) && Accepted(g, was[k], verifyIsolated)
    ensures SortedUpTo(g, was, now[k := next], k + 1, verifyIsolated)
  {
    hide SortedGraph, Accepted;
  }

  // Every node of the family has a place to write its id.
  ghost predicate Covers(root: ComputeGraph, allNodes: set<Node>)
    reads root, root.subGraphs
  {
    && (forall n :: n in root.nodes ==> n in allNodes)
    && (forall sub :: sub in root.subGraphs ==> forall n :: n in sub.nodes ==> n in allNodes)
  }

  // What the renumbering leaves behind.
  ghost predicate Numbered(g: Links, t: Table, was: Table, rank: string -> nat, ns: seq<Node>, d: nat)
    requires Nested(t, rank) && Below(t, rank, ns, d) && t.Keys == was.Keys
    reads FlattenNodes(t, rank, ns, d)`id
    reads set s, n | s in t && n in t[s] :: n`id
  {
    var all := FlattenNodes(t, rank, ns, d);
    && (forall i :: 0 <= i < |all| ==> all[i].id == i)
    && (forall n, s :: n in all && s in n.subgraphs && s in t ==>
         && (forall x :: x in t[s] ==> n.id < x.id)
         && (LoopsReturn(g, was[s]) ==> IdsIncrease(g, t[s])))
  }

  // The result of a successful sort of a nested graph: all is the preorder
  // flattening, a permutation of the one before, its nodes are numbered by
  // position, every counted edge of the root and of every subgraph increases
  // and subgraphs are numbered above the node that owns them.
  ghost predicate Renumbered(g: Links, t: Table, was: Table, rank: string -> nat, ns: seq<Node>, rootWas: seq<Node>,
                             d: nat, all: seq<Node>)
    requires Nested(was, rank) && Below(was, rank, rootWas, d)
    reads all`id, ns`id
    reads set s, n | s in t && n in t[s] :: n`id
  {
    && Nested(t, rank) && Below(t, rank, ns, d) && t.Keys == was.Keys
    && all == FlattenNodes(t, rank, ns, d)
    && multiset(all) == multiset(FlattenNodes(was, rank, rootWas, d))
    && (LoopsReturn(g, rootWas) ==> IdsIncrease(g, ns))
    && Numbered(g, t, was, rank, ns, d)
  }

  lemma NumberedFrom(g: Links, t: Table, was: Table, rank: string -> nat, ns: seq<Node>, d: nat)
    requires Nested(t, rank) && Below(t, rank, ns, d) && t.Keys == was.Keys
    requires forall s :: s in t ==> SortedGraph(g, was[s], t[s])
    requires forall i :: 0 <= i < |FlattenNodes(t, rank, ns, d)| ==> FlattenNodes(t, rank, ns, d)[i].id == i
    ensures Numbered(g, t, was, rank, ns, d)
  {
    hide SortedGraph, FlattenNodes, IdsIncrease, LoopsReturn, Nested, Below;
    forall n, s | n in FlattenNodes(t, rank, ns, d) && s in n.subgraphs && s in t
      ensures forall x :: x in t[s] ==> n.id < x.id
      ensures LoopsReturn(g, was[s]) ==> IdsIncrease(g, t[s])
    {
      SubgraphIds(g, t, rank, ns, d, n, s, was[s]);
    }
  }

  lemma RenumberedFrom(g: Links, t: Table, was: Table, rank: string -> nat, ns: seq<Node>, rootWas: seq<Node>,
                       d: nat, all: seq<Node>)
    requires Nested(was, rank) && Below(was, rank, rootWas, d) && t.Keys == was.Keys
    requires SortedGraph(g, rootWas, ns) && forall s :: s in t ==> SortedGraph(g, was[s], t[s])
    requires Nested(t, rank) && Below(t, rank, ns, d) && all == FlattenNodes(t, rank, ns, d)
    requires multiset(all) == multiset(FlattenNodes(was, rank, rootWas, d))
    requires forall i :: 0 <= i < |all| ==> all[i].id == i
    ensures Renumbered(g, t, was, rank, ns, rootWas, d, all)
  {
    hide FlattenNodes, Nested, Below, IdsIncrease, LoopsReturn, SortedGraph, Numbered;
    NumberedFrom(g, t, was, rank, ns, d);
    if LoopsReturn(g, rootWas) {
      RootIds(g, t, rank, ns, d, rootWas);
    }
  }

  // Flattens the (sorted) family and numbers the nodes along the result.
  method Renumber(root: ComputeGraph, ghost g: Links, ghost rootWas: seq<Node>, ghost was: Table,
                  ghost allNodes: set<Node>, ghost rank: string -> nat, ghost d: nat)
    returns (all: seq<Node>, subgraphs: seq<ComputeGraph>)
    requires Nested(was, rank) && Below(was, rank, rootWas, d)
    requires Distinct(FlattenNodes(was, rank, rootWas, d))
    requires forall n :: n in FlattenNodes(was, rank, rootWas, d) ==> n in allNodes
    requires was.Keys == root.namesToSubgraph.Keys && SortedGraph(g, rootWas, root.nodes)
    requires forall s :: s in was ==> SortedGraph(g, was[s], root.namesToSubgraph[s].nodes)
    modifies allNodes`id
    ensures Renumbered(g, TableOf(root.namesToSubgraph), was, rank, root.nodes, rootWas, d, all)
    ensures Met(root.namesToSubgraph, AllFound(TableOf(root.namesToSubgraph), all), subgraphs)
  {
    hide FlattenNodes, Nested, Below, Renumbered, SortedGraph, Met, AllFound;
    ghost var t := TableOf(root.namesToSubgraph);
    FlattenReady(g, was, t, rank, rootWas, root.nodes, d);
    all, subgraphs := AllGraphNodes(root, rank, d);
    SetAllIds(all);
    RenumberedFrom(g, t, was, rank, root.nodes, rootWas, d, all);
  }

  // The list of subgraphs becomes the list of those met, unless their numbers
  // differ.
  method RenumberAndList(root: ComputeGraph, ghost g: Links, ghost rootWas: seq<Node>, ghost was: Table,
                         ghost allNodes: set<Node>, ghost rank: string -> nat, ghost d: nat)
    returns (ghost all: seq<Node>)
    requires Nested(was, rank) && Below(was, rank, rootWas, d)
    requires Distinct(FlattenNodes(was, rank, rootWas, d))
    requires forall n :: n in FlattenNodes(was, rank, rootWas, d) ==> n in allNodes
    requires was.Keys == root.namesToSubgraph.Keys && SortedGraph(g, rootWas, root.nodes)
    requires forall s :: s in was ==> SortedGraph(g, was[s], root.namesToSubgraph[s].nodes)
    modifies allNodes`id, root`subGraphs
    ensures Renumbered(g, TableOf(root.namesToSubgraph), was, rank, root.nodes, rootWas, d, all)
    ensures var found := AllFound(TableOf(root.namesToSubgraph), all);
      if |found| == |old(root.subGraphs)| then Met(root.namesToSubgraph, found, root.subGraphs)
      else root.subGraphs == old(root.subGraphs)
  {
    hide FlattenNodes, Nested, Below, Renumbered, SortedGraph, Met, AllFound, Distinct;
    var flattened, subgraphs := Renumber(root, g, rootWas, was, allNodes, rank, d);
    all := flattened;
    MetLength(root.namesToSubgraph, AllFound(TableOf(root.namesToSubgraph), all), subgraphs);
    if |root.subGraphs| == |subgraphs| {
      root.subGraphs := subgraphs;
    }
  }

  lemma FlattenReady(g: Links, was: Table, t: Table, rank: string -> nat, rootWas: seq<Node>, ns: seq<Node>, d: nat)
    requires Nested(was, rank) && Below(was, rank, rootWas, d) && Distinct(FlattenNodes(was, rank, rootWas, d))
    requires was.Keys == t.Keys && SortedGraph(g, rootWas, ns)
    requires forall s :: s in was ==> SortedGraph(g, was[s], t[s])
    ensures Nested(t, rank) && Below(t, rank, ns, d) && Distinct(FlattenNodes(t, rank, ns, d))
    ensures multiset(FlattenNodes(t, rank, ns, d)) == multiset(FlattenNodes(was, rank, rootWas, d))
    ensures forall i :: 0 <= i < |FlattenNodes(t, rank, ns, d)| ==>
      FlattenNodes(t, rank, ns, d)[i] in FlattenNodes(was, rank, rootWas, d)
  {
    hide FlattenNodes, Nested, Below, LoopsReturn, TopologicalOrder;
    FlattenPermuted(was, t, rank, rootWas, ns, d);
    DistinctOfMultiset(FlattenNodes(was, rank, rootWas, d), FlattenNodes(t, rank, ns, d));
    SameElements(FlattenNodes(was, rank, rootWas, d), FlattenNodes(t, rank, ns, d));
  }

  method SetAllIds(all: seq<Node>)
    requires Distinct(all)
    modifies all`id
    ensures forall i :: 0 <= i < |all| ==> all[i].id == i
  {
    for k := 0 to |all|
      invariant forall i :: 0 <= i < k ==> all[i].id == i
    {
      all[k].id := k;
    }
  }

  // Without subgraphs the sort has already numbered everything.
  lemma FlatNumbered(root: ComputeGraph, g: Links, rootWas: seq<Node>, was: Table, rank: string -> nat, d: nat)
    returns (all: seq<Node>)
    requires root.namesToSubgraph == map[] && was == map[] && Nested(was, rank) && Below(was, rank, rootWas, d)
    requires SortedGraph(g, rootWas, root.nodes) && forall i :: 0 <= i < |root.nodes| ==> root.nodes[i].id == i
    ensures Renumbered(g, TableOf(root.namesToSubgraph), was, rank, root.nodes, rootWas, d, all)
  {
    hide FlattenNodes, IdsIncrease, LoopsReturn, TopologicalOrder;
    var t := TableOf(root.namesToSubgraph);
    assert t == map[];
    FlattenFlat(t, rank, root.nodes, d);
    FlattenFlat(was, rank, rootWas, d);
    all := root.nodes;
    RenumberedFrom(g, t, was, rank, root.nodes, rootWas, d, all);
  }

  // Sorts the root and then its subgraphs.
  method SortFamily(root: ComputeGraph, useBfs: bool, verifyIsolated: bool, ghost allNodes: set<Node>)
      returns (ok: bool)
    requires Family(root) && Covers(root, allNodes)
    requires CountersFit(View(root.anchors), root.nodes)
    requires forall sub :: sub in root.subGraphs ==> CountersFit(View(root.anchors), sub.nodes)
    requires useBfs ==> TargetNamesApart(View(root.anchors), root.nodes)
    requires useBfs ==> forall sub :: sub in root.subGraphs ==> TargetNamesApart(View(root.anchors), sub.nodes)
    modifies root`nodes, root`isValid, root.subGraphs`nodes, root.subGraphs`isValid, allNodes`id
    ensures View(root.anchors) == old(View(root.anchors)) && Family(root)
    ensures ok ==> SortedGraph(View(root.anchors), old(root.nodes), root.nodes)
    ensures ok ==> forall s :: s in root.namesToSubgraph ==>
      SortedGraph(View(root.anchors), old(root.namesToSubgraph[s].nodes), root.namesToSubgraph[s].nodes)
    ensures ok && root.subGraphs == [] ==> forall i :: 0 <= i < |root.nodes| ==> root.nodes[i].id == i
    ensures ok || Refused(View(root.anchors), old(root.nodes), verifyIsolated) ||
      AnyRefused(View(root.anchors), old(NodeLists(root.subGraphs)), verifyIsolated)
    ensures ok ==> Accepted(View(root.anchors), old(root.nodes), verifyIsolated)
    ensures ok ==> AllAccepted(View(root.anchors), old(NodeLists(root.subGraphs)), verifyIsolated)
  {
    hide SortedGraph, SortResult, Refused, Accepted, GraphOk, CountersFit, View, Anchored, IdsIncrease, LoopsReturn,
      AnyRefused, TargetNamesApart;
    ghost var lists := NodeLists(root.subGraphs);
    ghost var rootWas := root.nodes;
    ok := root.TopologicalSortingGraph(useBfs, verifyIsolated, false);
    SortedFrom(View(root.anchors), rootWas, verifyIsolated, ok, root.nodes);
    if ok && root.subGraphs != [] {
      assert NodeLists(root.subGraphs) == lists;
      ok := SortSubgraphs(root, useBfs, verifyIsolated, allNodes);
      forall s | ok && s in root.namesToSubgraph
        ensures SortedGraph(View(root.anchors), old(root.namesToSubgraph[s].nodes), root.namesToSubgraph[s].nodes)
      {
        var k :| 0 <= k < |root.subGraphs| && root.subGraphs[k] == root.namesToSubgraph[s];
        assert lists[k] == old(root.namesToSubgraph[s].nodes);
      }
    }
  }

  lemma FlattenFlat(t: Table, rank: string -> nat, ns: seq<Node>, d: nat)
    requires t == map[] && Nested(t, rank) && Below(t, rank, ns, d)
    ensures FlattenNodes(t, rank, ns, d) == ns
  {
    if ns != [] {
      FlattenFlat(t, rank, Front(ns), d);
      NoNames(t, rank, Last(ns).subgraphs, d);
    }
  }

  lemma {:induction false} NoNames(t: Table, rank: string -> nat, names: seq<string>, d: nat)
    requires t == map[] && Nested(t, rank) && NamesBelow(t, rank, names, d)
    ensures FlattenNames(t, rank, names, d) == []
  {
    if names != [] {
      NoNames(t, rank, Front(names), d);
    }
  }

  method TopologicalSorting(root: ComputeGraph, useBfs: bool, verifyIsolated: bool,
                            ghost allNodes: set<Node>, ghost rank: string -> nat, ghost d: nat)
    returns (ok: bool, ghost all: seq<Node>)
    requires Family(root) && Covers(root, allNodes)
    requires CountersFit(View(root.anchors), root.nodes)
    requires forall sub :: sub in root.subGraphs ==> CountersFit(View(root.anchors), sub.nodes)
    requires useBfs ==> TargetNamesApart(View(root.anchors), root.nodes)
    requires useBfs ==> forall sub :: sub in root.subGraphs ==> TargetNamesApart(View(root.anchors), sub.nodes)
    requires Nested(TableOf(root.namesToSubgraph), rank) && Below(TableOf(root.namesToSubgraph), rank, root.nodes, d)
    requires Distinct(FlattenNodes(TableOf(root.namesToSubgraph), rank, root.nodes, d))
    requires forall n :: n in FlattenNodes(TableOf(root.namesToSubgraph), rank, root.nodes, d) ==> n in allNodes
    modifies root`nodes, root`isValid, root`subGraphs, root.subGraphs`nodes, root.subGraphs`isValid, allNodes`id
    ensures View(root.anchors) == old(View(root.anchors))
    ensures ok ==> Renumbered(View(root.anchors), TableOf(root.namesToSubgraph), old(TableOf(root.namesToSubgraph)),
                     rank, root.nodes, old(root.nodes), d, all)
    ensures ok && old(root.subGraphs) != [] ==>
      var found := AllFound(TableOf(root.namesToSubgraph), all);
        if |found| == |old(root.subGraphs)| then Met(root.namesToSubgraph, found, root.subGraphs)
        else root.subGraphs == old(root.subGraphs)
    ensures !ok || old(root.subGraphs) == [] ==> root.subGraphs == old(root.subGraphs)
    ensures ok || Refused(View(root.anchors), old(root.nodes), verifyIsolated) ||
      AnyRefused(View(root.anchors), old(NodeLists(root.subGraphs)), verifyIsolated)
    ensures ok ==> Accepted(View(root.anchors), old(root.nodes), verifyIsolated)
    ensures ok ==> AllAccepted(View(root.anchors), old(NodeLists(root.subGraphs)), verifyIsolated)
  {
    hide SortedGraph, Refused, Accepted, AllAccepted, GraphOk, CountersFit, View, Anchored, Renumbered,
      FlattenNodes, Nested, Below, AnyRefused, Met, AllFound, TargetNamesApart, NodeLists;
    ghost var g, rootWas, was := View(root.anchors), root.nodes, TableOf(root.namesToSubgraph);
    all := [];
    ok := SortFamily(root, useBfs, verifyIsolated, allNodes);
    if !ok {
      return;
    }
    if root.subGraphs == [] {
      all := FlatNumbered(root, g, rootWas, was, rank, d);
      return;
    }
    all := RenumberAndList(root, g, rootWas, was, allNodes, rank, d);
  }
}
