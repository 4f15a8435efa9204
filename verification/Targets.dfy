// The decrement targets of a node in the order in which the sorts visit them,
// and the ordered name map that the breadth-first sort collects them in.
module Targets {
  import opened Links
  import opened Degrees
  import opened TopoOrder

  function Owners(s: seq<Port>): seq<Node> {
    if s == [] then [] else Owners(Front(s)) + [Last(s).node]
  }

  // Peers of an out port, in the one or two groups that are walked separately.
  function Groups(g: Links, p: Port): seq<seq<Node>> {
    if p.OutData? then [Owners(InDataOf(At(g, p))), Owners(InCtrlOf(At(g, p)))] else [Owners(At(g, p))]
  }

  function PortTargets(g: Links, p: Port): seq<Node> {
    if p.OutData? then Owners(InDataOf(At(g, p))) + Owners(InCtrlOf(At(g, p))) else Owners(At(g, p))
  }

  function PortsTargets(g: Links, ps: seq<Port>): seq<Node> {
    if ps == [] then [] else PortsTargets(g, Front(ps)) + PortTargets(g, Last(ps))
  }

  function NodeTargets(g: Links, m: Node): seq<Node> {
    PortsTargets(g, OutPorts(m))
  }

  lemma {:induction false} OwnersHits(s: seq<Port>, n: Node)
    ensures multiset(Owners(s))[n] == Hits(s, n)
  {
    if s != [] {
      OwnersHits(Front(s), n);
    }
  }

  lemma {:induction false} GroupHits(s: seq<Port>, n: Node)
    requires forall q :: q in s ==> q.IsIn()
    ensures Hits(InDataOf(s), n) + Hits(InCtrlOf(s), n) == Hits(s, n)
  {
    if s != [] {
      assert Last(s) in s && Last(s).IsIn();
      GroupHits(Front(s), n);
      HitsAppend(InDataOf(Front(s)), Last(s), n);
      HitsAppend(InCtrlOf(Front(s)), Last(s), n);
      assert InDataOf(Front(s)) + [] == InDataOf(Front(s));
      assert InCtrlOf(Front(s)) + [] == InCtrlOf(Front(s));
    }
  }

  lemma HitsAppend(s: seq<Port>, x: Port, n: Node)
    ensures Hits(s + [x], n) == Hits(s, n) + if x.node == n then 1 else 0
  {
    assert Front(s + [x]) == s;
  }

  lemma {:induction false} OwnersIn(s: seq<Port>, nodes: seq<Node>)
    requires forall q :: q in s ==> q.node in nodes
    ensures forall n :: n in Owners(s) ==> n in nodes
  {
    if s != [] {
      OwnersIn(Front(s), nodes);
    }
  }

  lemma {:induction false} FilterIn(s: seq<Port>)
    ensures forall q :: q in InDataOf(s) ==> q in s
    ensures forall q :: q in InCtrlOf(s) ==> q in s
  {
    if s != [] {
      FrontLast(s);
      FilterIn(Front(s));
    }
  }

  lemma PortTargetsCount(g: Links, p: Port, n: Node)
    requires Closed(g) && p.IsOut()
    ensures multiset(PortTargets(g, p))[n] == Hits(At(g, p), n)
  {
    var s := At(g, p);
    OwnersHits(s, n);
    OwnersHits(InDataOf(s), n);
    OwnersHits(InCtrlOf(s), n);
    GroupHits(s, n);
  }

  lemma {:induction false} PortsTargetsCount(g: Links, ps: seq<Port>, n: Node)
    requires Closed(g) && forall p :: p in ps ==> p.IsOut()
    ensures multiset(PortsTargets(g, ps))[n] == LeavingTo(g, ps, n)
  {
    if ps != [] {
      PortsTargetsCount(g, Front(ps), n);
      PortTargetsCount(g, Last(ps), n);
    }
  }

  lemma {:induction false} PortsTargetsIn(g: Links, nodes: seq<Node>, ps: seq<Port>)
    requires forall p, q :: p in ps && q in At(g, p) ==> q.node in nodes
    ensures forall n :: n in PortsTargets(g, ps) ==> n in nodes
  {
    if ps != [] {
      PortsTargetsIn(g, nodes, Front(ps));
      var s := At(g, Last(ps));
      FilterIn(s);
      OwnersIn(s, nodes);
      OwnersIn(InDataOf(s), nodes);
      OwnersIn(InCtrlOf(s), nodes);
    }
  }

  // The targets of m are exactly its outgoing edges.
  lemma NodeTargetsOk(g: Links, nodes: seq<Node>, m: Node)
    requires GraphOk(g, nodes) && m in nodes
    ensures TargetsOk(g, nodes, m, NodeTargets(g, m))
  {
    PortsOfNode(m);
    PortsTargetsIn(g, nodes, OutPorts(m));
    forall n | n in nodes ensures multiset(NodeTargets(g, m))[n] == Weight(g, m, n) {
      PortsTargetsCount(g, OutPorts(m), n);
    }
  }

  // ------------------------------------------ std::map<string, NodePtr> by name

  // operator< on strings.
  predicate NameLess(a: string, b: string) {
    b != [] && (a == [] || a[0] < b[0] || (a[0] == b[0] && NameLess(a[1..], b[1..])))
  }

  lemma {:induction false} NameLessTotal(a: string, b: string)
    ensures a != b ==> NameLess(a, b) || NameLess(b, a)
    ensures !(NameLess(a, b) && NameLess(b, a))
  {
    if a != [] && b != [] {
      assert a == [a[0]] + a[1..] && b == [b[0]] + b[1..];
      NameLessTotal(a[1..], b[1..]);
    }
  }

  lemma {:induction false} NameLessTransitive(a: string, b: string, c: string)
    requires NameLess(a, b) && NameLess(b, c)
    ensures NameLess(a, c)
  {
    if a != [] && a[0] == b[0] == c[0] {
      NameLessTransitive(a[1..], b[1..], c[1..]);
    }
  }

  // emplace: a name that is already present keeps its node.
  function Emplace(s: seq<Node>, n: Node): seq<Node> {
    if s == [] then [n]
    else if s[0].name == n.name then s
    else if NameLess(n.name, s[0].name) then [n] + s
    else [s[0]] + Emplace(s[1..], n)
  }

  function EmplaceAll(s: seq<Node>, ns: seq<Node>): seq<Node> {
    if ns == [] then s else Emplace(EmplaceAll(s, Front(ns)), Last(ns))
  }

  ghost predicate NameSorted(s: seq<Node>) {
    forall i, j :: 0 <= i < j < |s| ==> NameLess(s[i].name, s[j].name)
  }

  lemma {:induction false} EmplaceAdds(s: seq<Node>, n: Node)
    ensures (forall x :: x in s ==> x.name != n.name) ==> multiset(Emplace(s, n)) == multiset(s) + multiset{n}
    ensures forall x :: x in Emplace(s, n) ==> x in s || x == n
  {
    if s != [] {
      assert s == [s[0]] + s[1..];
      EmplaceAdds(s[1..], n);
    }
  }

  lemma {:induction false} EmplaceSorted(s: seq<Node>, n: Node)
    requires NameSorted(s)
    ensures NameSorted(Emplace(s, n))
  {
    if s != [] && s[0].name != n.name {
      NameLessTotal(n.name, s[0].name);
      if NameLess(n.name, s[0].name) {
        forall j | 0 <= j < |s| ensures NameLess(n.name, s[j].name) {
          if j > 0 {
            NameLessTransitive(n.name, s[0].name, s[j].name);
          }
        }
      } else {
        EmplaceSorted(s[1..], n);
        EmplaceAdds(s[1..], n);
        var r := Emplace(s[1..], n);
        forall j | 0 <= j < |r| ensures NameLess(s[0].name, r[j].name) {
          assert r[j] in s[1..] || r[j] == n;
        }
      }
    }
  }

  // Nodes that one node can make ready together have different names.
  ghost predicate TargetNamesApart(g: Links, nodes: seq<Node>) {
    forall m {:trigger NodeTargets(g, m)} :: m in nodes ==> UniqueNames(NodeTargets(g, m))
  }

  // The breadth map holds each ready node once, in name order.
  lemma {:induction false} EmplaceAllExact(ns: seq<Node>)
    requires UniqueNames(ns) && Distinct(ns)
    ensures multiset(EmplaceAll([], ns)) == multiset(ns)
    ensures NameSorted(EmplaceAll([], ns))
  {
    if ns != [] {
      FrontLast(ns);
      EmplaceAllExact(Front(ns));
      var s := EmplaceAll([], Front(ns));
      forall x | x in s ensures x.name != Last(ns).name {
        assert x in multiset(s);
        assert x in Front(ns);
      }
      EmplaceAdds(s, Last(ns));
      EmplaceSorted(s, Last(ns));
    }
  }

  lemma {:induction false} ReversedMultiset<T>(s: seq<T>)
    ensures multiset(Reversed(s)) == multiset(s)
  {
    if s != [] {
      FrontLast(s);
      ReversedMultiset(Front(s));
    }
  }

  // What the depth-first sort pushes while it walks the target groups gs.
  function Pushes(cnt: map<Node, int>, gs: seq<seq<Node>>, reverse: bool): seq<Node> {
    if gs == [] then []
    else
      var r := Ready(Drained(cnt, Concat(Front(gs))), Last(gs));
      Pushes(cnt, Front(gs), reverse) + PushOrder(r, reverse)
  }

  function PushOrder(r: seq<Node>, reverse: bool): seq<Node> {
    if reverse then Reversed(r) else r
  }

  function Concat<T>(gs: seq<seq<T>>): seq<T> {
    if gs == [] then [] else Concat(Front(gs)) + Last(gs)
  }

  function NodeGroups(g: Links, ps: seq<Port>): seq<seq<Node>> {
    if ps == [] then [] else NodeGroups(g, Front(ps)) + Groups(g, Last(ps))
  }

  lemma {:induction false} ConcatAppend<T>(gs: seq<seq<T>>, hs: seq<seq<T>>)
    ensures Concat(gs + hs) == Concat(gs) + Concat(hs)
  {
    if hs == [] {
      assert gs + hs == gs;
    } else {
      assert Front(gs + hs) == gs + Front(hs) && Last(gs + hs) == Last(hs);
      ConcatAppend(gs, Front(hs));
      assert Concat(gs) + Concat(Front(hs)) + Last(hs) == Concat(gs) + (Concat(Front(hs)) + Last(hs));
    }
  }

  lemma {:induction false} NodeGroupsConcat(g: Links, ps: seq<Port>)
    ensures Concat(NodeGroups(g, ps)) == PortsTargets(g, ps)
  {
    if ps != [] {
      NodeGroupsConcat(g, Front(ps));
      ConcatAppend(NodeGroups(g, Front(ps)), Groups(g, Last(ps)));
      GroupsConcat(g, Last(ps));
    }
  }

  lemma ConcatOne<T>(s: seq<T>)
    ensures Concat([s]) == s
  {
    assert Front([s]) == [];
    assert [] + s == s;
  }

  lemma GroupsConcat(g: Links, p: Port)
    ensures Concat(Groups(g, p)) == PortTargets(g, p)
  {
    var gs := Groups(g, p);
    if p.OutData? {
      ConcatAppend([gs[0]], [gs[1]]);
      ConcatOne(gs[0]);
      ConcatOne(gs[1]);
    } else {
      ConcatOne(gs[0]);
    }
  }

  lemma {:induction false} PushesReady(cnt: map<Node, int>, gs: seq<seq<Node>>, reverse: bool)
    ensures multiset(Pushes(cnt, gs, reverse)) == multiset(Ready(cnt, Concat(gs)))
    ensures !reverse ==> Pushes(cnt, gs, reverse) == Ready(cnt, Concat(gs))
  {
    if gs != [] {
      PushesReady(cnt, Front(gs), reverse);
      DrainedConcat(cnt, Concat(Front(gs)), Last(gs));
      ReversedMultiset(Ready(Drained(cnt, Concat(Front(gs))), Last(gs)));
    }
  }

  lemma {:induction false} PushesAppend(cnt: map<Node, int>, gs: seq<seq<Node>>, hs: seq<seq<Node>>, reverse: bool)
    ensures Pushes(cnt, gs + hs, reverse) == Pushes(cnt, gs, reverse) + Pushes(Drained(cnt, Concat(gs)), hs, reverse)
  {
    if hs == [] {
      assert gs + hs == gs;
    } else {
      hide Drained, Ready, Concat, PushOrder;
      assert Front(gs + hs) == gs + Front(hs) && Last(gs + hs) == Last(hs);
      PushesAppend(cnt, gs, Front(hs), reverse);
      ConcatAppend(gs, Front(hs));
      DrainedConcat(cnt, Concat(gs), Concat(Front(hs)));
      var r := PushOrder(Ready(Drained(cnt, Concat(gs) + Concat(Front(hs))), Last(hs)), reverse);
      Associative(Pushes(cnt, gs, reverse), Pushes(Drained(cnt, Concat(gs)), Front(hs), reverse), r);
    }
  }

  // The first k data outputs.
  function DataOutPorts(n: Node, k: nat): seq<Port> {
    if k == 0 then [] else DataOutPorts(n, k - 1) + [OutData(n, k - 1)]
  }

  lemma {:induction false} DataOutPortsAre(n: Node, k: nat)
    requires k <= n.outputs
    ensures DataOutPorts(n, k) == OutPorts(n)[..k]
  {
    if k > 0 {
      DataOutPortsAre(n, k - 1);
    }
  }

  lemma OutPortsAre(n: Node)
    ensures OutPorts(n) == DataOutPorts(n, n.outputs) + [OutCtrl(n)]
  {
    DataOutPortsAre(n, n.outputs);
  }

  lemma WalkStart(g: Links, cnt: map<Node, int>, reverse: bool)
    ensures Drained(cnt, PortsTargets(g, [])) == cnt && Ready(cnt, PortsTargets(g, [])) == []
    ensures Pushes(cnt, NodeGroups(g, []), reverse) == []
    ensures EmplaceAll([], Ready(cnt, PortsTargets(g, []))) == []
  {
  }

  // One more port walked by the depth-first sort.
  lemma WalkStep(g: Links, cnt: map<Node, int>, ps: seq<Port>, p: Port, reverse: bool)
    ensures Drained(cnt, PortsTargets(g, ps + [p])) == Drained(Drained(cnt, PortsTargets(g, ps)), PortTargets(g, p))
    ensures Ready(cnt, PortsTargets(g, ps + [p])) ==
      Ready(cnt, PortsTargets(g, ps)) + Ready(Drained(cnt, PortsTargets(g, ps)), PortTargets(g, p))
    ensures Pushes(cnt, NodeGroups(g, ps + [p]), reverse) ==
      Pushes(cnt, NodeGroups(g, ps), reverse) + Pushes(Drained(cnt, PortsTargets(g, ps)), Groups(g, p), reverse)
  {
    assert Front(ps + [p]) == ps && Last(ps + [p]) == p;
    DrainedConcat(cnt, PortsTargets(g, ps), PortTargets(g, p));
    NodeGroupsConcat(g, ps);
    PushesAppend(cnt, NodeGroups(g, ps), Groups(g, p), reverse);
  }

  lemma {:induction false} EmplaceAllAppend(s: seq<Node>, a: seq<Node>, b: seq<Node>)
    ensures EmplaceAll(s, a + b) == EmplaceAll(EmplaceAll(s, a), b)
  {
    if b == [] {
      assert a + b == a;
    } else {
      assert Front(a + b) == a + Front(b) && Last(a + b) == Last(b);
      EmplaceAllAppend(s, a, Front(b));
    }
  }

  // The breadth-first sort after the out ports ps of a node.
  ghost predicate Collected(g: Links, c: map<Node, int>, ps: seq<Port>, cnt: map<Node, int>, breadth: seq<Node>) {
    cnt == Drained(c, PortsTargets(g, ps)) && breadth == EmplaceAll([], Ready(c, PortsTargets(g, ps)))
  }

  lemma CollectedStart(g: Links, c: map<Node, int>)
    ensures Collected(g, c, [], c, [])
  {
  }

  lemma CollectedStep(g: Links, c: map<Node, int>, ps: seq<Port>, p: Port, cnt: map<Node, int>, breadth: seq<Node>)
    requires Collected(g, c, ps, cnt, breadth)
    ensures Collected(g, c, ps + [p], Drained(cnt, PortTargets(g, p)),
              EmplaceAll(breadth, Ready(cnt, PortTargets(g, p))))
  {
    hide Drained, Ready, EmplaceAll, PortsTargets, PortTargets;
    WalkStep(g, c, ps, p, false);
    EmplaceAllAppend([], Ready(c, PortsTargets(g, ps)), Ready(cnt, PortTargets(g, p)));
  }
}
