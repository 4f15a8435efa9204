// ReorderEventNodes: a Recv node moves in front of the node it releases, a Send
// node behind the node it waits for.
module EventNodes {
  import opened Links
  import opened Anchors
  import opened Degrees
  import opened Rewiring
  import opened Targets
  import opened ComputeGraphs
  import opened TopoMeaning
  import IsolateNodes

  // ---------------------------------------------------------------- moving

  // Position of the first n, or the length.
  function Find(s: seq<Node>, n: Node): (i: nat)
    ensures i <= |s| && (i < |s| ==> s[i] == n) && (i == |s| <==> n !in s)
    ensures forall k :: 0 <= k < i ==> s[k] != n
  {
    if s == [] then 0 else if s[0] == n then 0 else 1 + Find(s[1..], n)
  }

  function Erased(s: seq<Node>, n: Node): seq<Node> {
    var i := Find(s, n);
    if i < |s| then s[..i] + s[i + 1..] else s
  }

  function Put(s: seq<Node>, at: nat, n: Node): seq<Node>
    requires at <= |s|
  {
    s[..at] + [n] + s[at..]
  }

  // The list insert calls: before a node (or at the end), and behind one.
  function MovedBefore(s: seq<Node>, n: Node, d: Node): seq<Node> {
    var r := Erased(s, n);
    Put(r, Find(r, d), n)
  }

  function MovedBehind(s: seq<Node>, n: Node, d: Node): seq<Node> {
    var r := Erased(s, n);
    var i := Find(r, d);
    Put(r, if i < |r| then i + 1 else i, n)
  }

  function DataControlNodes(g: Links, n: Node, k: nat): seq<Node> {
    if k == 0 then [] else DataControlNodes(g, n, k - 1) + Owners(InCtrlOf(At(g, OutData(n, k - 1))))
  }

  function OutControlNodes(g: Links, n: Node): seq<Node> {
    DataControlNodes(g, n, n.outputs) + Owners(At(g, OutCtrl(n)))
  }

  function InControlNodes(g: Links, n: Node): seq<Node> {
    Owners(OutCtrlOf(At(g, InCtrl(n))))
  }

  function Step(g: Links, s: seq<Node>, n: Node): seq<Node> {
    if n.kind == "Recv" && OutControlNodes(g, n) != [] then MovedBefore(s, n, OutControlNodes(g, n)[0])
    else if n.kind == "Send" && InControlNodes(g, n) != [] then MovedBehind(s, n, InControlNodes(g, n)[0])
    else s
  }

  // The loop goes over a copy of the list taken before the first move.
  function Reordered(g: Links, s: seq<Node>, order: seq<Node>): seq<Node> {
    if order == [] then s else Step(g, Reordered(g, s, Front(order)), Last(order))
  }

  // The list after the events among the first k nodes have been moved.
  function After(g: Links, s: seq<Node>, k: nat): seq<Node>
    requires k <= |s|
  {
    Reordered(g, s, s[..k])
  }

  lemma AfterNone(g: Links, s: seq<Node>)
    ensures After(g, s, 0) == s
  {
    assert s[..0] == [];
  }

  lemma AfterAll(g: Links, s: seq<Node>)
    ensures After(g, s, |s|) == Reordered(g, s, s)
  {
    assert s[..|s|] == s;
  }

  lemma AfterStep(g: Links, s: seq<Node>, k: nat)
    requires k < |s|
    ensures After(g, s, k + 1) == Step(g, After(g, s, k), s[k])
  {
    assert Front(s[..k + 1]) == s[..k];
  }

  // ------------------------------------------------------------- the method

  method GetOutControlNodes(graph: ComputeGraph, n: Node) returns (r: seq<Node>)
    requires graph.Valid() && n in graph.nodes
    ensures r == OutControlNodes(View(graph.anchors), n)
  {
    ghost var g := View(graph.anchors);
    r := [];
    for k := 0 to n.outputs
      invariant r == DataControlNodes(g, n, k)
    {
      OwnPort(g, n, OutData(n, k));
      var peers := graph.anchors[OutData(n, k)].GetPeerInControlAnchors();
      var owners := IsolateNodes.OwnersOf(peers);
      r := r + owners;
    }
    OwnPort(g, n, OutCtrl(n));
    var owners := IsolateNodes.OwnersOf(graph.anchors[OutCtrl(n)].peers);
    r := r + owners;
  }

  method GetInControlNodes(graph: ComputeGraph, n: Node) returns (r: seq<Node>)
    requires graph.Valid() && n in graph.nodes
    ensures r == InControlNodes(View(graph.anchors), n)
  {
    OwnPort(View(graph.anchors), n, InCtrl(n));
    var peers := graph.anchors[InCtrl(n)].GetPeerOutControlAnchors();
    r := IsolateNodes.OwnersOf(peers);
  }

  // A Recv that releases no node, or a Send that waits for none.
  predicate Lone(g: Links, n: Node) {
    (n.kind == "Recv" && OutControlNodes(g, n) == []) || (n.kind == "Send" && InControlNodes(g, n) == [])
  }

  // What the first lone node leaves behind: it is erased before its partner is
  // looked up, and that look-up throws.
  ghost predicate StoppedAt(g: Links, s: seq<Node>, k: nat, r: seq<Node>) {
    k < |s| && Lone(g, s[k]) && (forall i :: 0 <= i < k ==> !Lone(g, s[i])) && r == Erased(After(g, s, k), s[k])
  }

  method ReorderEventNodes(graph: ComputeGraph) returns (threw: bool)
    requires graph.Valid()
    modifies graph`nodes
    ensures threw <==> exists n :: n in old(graph.nodes) && Lone(old(View(graph.anchors)), n)
    ensures !threw ==> graph.nodes == Reordered(old(View(graph.anchors)), old(graph.nodes), old(graph.nodes))
    ensures !threw ==> graph.Valid() && multiset(graph.nodes) == multiset(old(graph.nodes))
    ensures threw ==> exists k :: StoppedAt(old(View(graph.anchors)), old(graph.nodes), k, graph.nodes)
  {
    hide Step, GraphOk, Anchored, View, Lone, Erased, Reordered, After, StoppedAt;
    ghost var g := View(graph.anchors);
    var direct := graph.nodes;
    var list := direct;
    AfterNone(g, direct);
    for k := 0 to |direct|
      invariant list == After(g, direct, k) && graph.nodes == direct
      invariant forall i :: 0 <= i < k ==> !Lone(g, direct[i])
    {
      AfterStep(g, direct, k);
      threw, list := MoveEvent(graph, list, direct[k]);
      if threw {
        StopsHere(g, direct, k, list);
        assert direct[k] in direct;
        graph.nodes := list;
        return;
      }
    }
    AfterAll(g, direct);
    StaysValid(g, direct);
    graph.nodes := list;
    threw := false;
  }

  lemma StopsHere(g: Links, s: seq<Node>, k: nat, r: seq<Node>)
    requires k < |s| && Lone(g, s[k]) && (forall i :: 0 <= i < k ==> !Lone(g, s[i])) &&
      r == Erased(After(g, s, k), s[k])
    ensures StoppedAt(g, s, k, r)
  {
  }

  method MoveEvent(graph: ComputeGraph, list: seq<Node>, n: Node) returns (threw: bool, r: seq<Node>)
    requires graph.Valid() && n in graph.nodes
    ensures threw == Lone(View(graph.anchors), n)
    ensures r == if threw then Erased(list, n) else Step(View(graph.anchors), list, n)
  {
    hide GraphOk, Anchored, View, OutControlNodes, InControlNodes, MovedBefore, MovedBehind, Erased;
    r := list;
    threw := false;
    if n.kind == "Recv" {
      var partners := GetOutControlNodes(graph, n);
      threw := partners == [];
      if threw {
        r := Erase(list, n);
      } else {
        r := MoveBefore(list, n, partners[0]);
      }
    } else if n.kind == "Send" {
      var partners := GetInControlNodes(graph, n);
      threw := partners == [];
      if threw {
        r := Erase(list, n);
      } else {
        r := MoveBehind(list, n, partners[0]);
      }
    }
  }

  method MoveBefore(list: seq<Node>, n: Node, d: Node) returns (r: seq<Node>)
    ensures r == MovedBefore(list, n, d)
  {
    hide Find, Erased, Put;
    r := Erase(list, n);
    var i := Position(r, d);
    r := Insert(r, i, n);
  }

  method MoveBehind(list: seq<Node>, n: Node, d: Node) returns (r: seq<Node>)
    ensures r == MovedBehind(list, n, d)
  {
    hide Find, Erased, Put;
    r := Erase(list, n);
    var i := Position(r, d);
    r := Insert(r, if i < |r| then i + 1 else i, n);
  }

  method Insert(s: seq<Node>, at: nat, n: Node) returns (r: seq<Node>)
    requires at <= |s|
    ensures r == Put(s, at, n)
  {
    r := s[..at] + [n] + s[at..];
  }

  method Position(s: seq<Node>, n: Node) returns (i: nat)
    ensures i == Find(s, n)
  {
    i := 0;
    while i < |s| && s[i] != n
      invariant i <= |s| && forall k :: 0 <= k < i ==> s[k] != n
    {
      i := i + 1;
    }
    FindIs(s, n, i);
  }

  lemma {:induction false} FindIs(s: seq<Node>, n: Node, i: nat)
    requires i <= |s| && (forall k :: 0 <= k < i ==> s[k] != n) && (i < |s| ==> s[i] == n)
    ensures i == Find(s, n)
  {
    if i > 0 {
      FindIs(s[1..], n, i - 1);
    }
  }

  method Erase(s: seq<Node>, n: Node) returns (r: seq<Node>)
    ensures r == Erased(s, n)
  {
    var i := Position(s, n);
    r := if i < |s| then s[..i] + s[i + 1..] else s;
  }

  // ------------------------------------------------------------- meaning

  lemma ErasedKeeps(s: seq<Node>, n: Node)
    ensures n in s ==> multiset(Erased(s, n)) == multiset(s) - multiset{n}
    ensures Distinct(s) ==> Distinct(Erased(s, n)) && n !in Erased(s, n)
  {
    hide Find;
    var i := Find(s, n);
    if i < |s| {
      assert s == s[..i] + [s[i]] + s[i + 1..];
      if Distinct(s) {
        ErasedDistinct(s, i);
      }
    }
  }

  lemma ErasedDistinct(s: seq<Node>, i: nat)
    requires Distinct(s) && i < |s|
    ensures var e := s[..i] + s[i + 1..]; Distinct(e) && s[i] !in e
  {
    var e := s[..i] + s[i + 1..];
    assert forall k :: 0 <= k < |e| ==> e[k] == s[if k < i then k else k + 1];
  }

  lemma ErasedAt(s: seq<Node>, n: Node)
    ensures var e, x := Erased(s, n), Find(s, n);
      && |e| == (if x < |s| then |s| - 1 else |s|)
      && (forall i {:trigger e[i]} {:trigger s[i]} :: 0 <= i < x ==> e[i] == s[i])
      && (forall i {:trigger s[i]} :: x < i < |s| ==> e[i - 1] == s[i])
  {
    hide Find;
    var e, x := Erased(s, n), Find(s, n);
    assert x < |s| ==> e == s[..x] + s[x + 1..];
  }

  lemma ErasedOrder(s: seq<Node>, n: Node, a: Node, b: Node)
    requires Before(s, a, b) && a != n && b != n
    ensures Before(Erased(s, n), a, b)
  {
    var i, j :| 0 <= i < j < |s| && s[i] == a && s[j] == b;
    var k := Find(s, n);
    ErasedAt(s, n);
    hide Erased, Find;
    var e := Erased(s, n);
    assert e[if i < k then i else i - 1] == a && e[if j < k then j else j - 1] == b;
  }

  lemma PutOrder(s: seq<Node>, at: nat, n: Node, a: Node, b: Node)
    requires at <= |s| && Before(s, a, b)
    ensures Before(Put(s, at, n), a, b)
  {
    var i, j :| 0 <= i < j < |s| && s[i] == a && s[j] == b;
    var r := Put(s, at, n);
    assert r[if i < at then i else i + 1] == a && r[if j < at then j else j + 1] == b;
  }

  lemma PutKeeps(s: seq<Node>, at: nat, n: Node)
    requires at <= |s|
    ensures multiset(Put(s, at, n)) == multiset(s) + multiset{n}
    ensures Distinct(s) && n !in s ==> Distinct(Put(s, at, n))
  {
    assert s == s[..at] + s[at..];
  }

  // Wherever the node goes, the others stay in order and the list stays a
  // permutation.
  lemma MoveKeeps(s: seq<Node>, n: Node, at: nat)
    requires Distinct(s) && n in s && at <= |Erased(s, n)|
    ensures var r := Put(Erased(s, n), at, n);
      && Distinct(r) && multiset(r) == multiset(s)
      && forall a, b {:trigger Before(r, a, b)} :: a != n && b != n && Before(s, a, b) ==> Before(r, a, b)
  {
    ErasedKeeps(s, n);
    var e := Erased(s, n);
    PutKeeps(e, at, n);
    forall a, b | a != n && b != n && Before(s, a, b) ensures Before(Put(e, at, n), a, b) {
      ErasedOrder(s, n, a, b);
      hide Put, Erased, Before;
      PutOrder(e, at, n, a, b);
    }
    hide Put, Erased, Distinct, Before;
    assert n in s ==> multiset(s) - multiset{n} + multiset{n} == multiset(s);
  }

  lemma BeforeShape(s: seq<Node>, n: Node, d: Node, x: nat, y: nat)
    requires Distinct(s) && x < y < |s| && s[x] == n && s[y] == d
    ensures var r := MovedBefore(s, n, d);
      |r| == |s| && r[y - 1] == n && r[y] == d && forall i {:trigger r[i]} :: 0 <= i < x ==> r[i] == s[i]
  {
    FindDistinct(s, n, x);
    ErasedAt(s, n);
    ErasedKeeps(s, n);
    hide Distinct, Put, Erased, Find;
    var e := Erased(s, n);
    FindDistinct(e, d, y - 1);
    PutAt(e, y - 1, n);
  }

  lemma BehindShape(s: seq<Node>, n: Node, d: Node, y: nat, x: nat)
    requires Distinct(s) && y < x < |s| && s[x] == n && s[y] == d
    ensures var r := MovedBehind(s, n, d);
      |r| == |s| && r[y] == d && r[y + 1] == n && forall j {:trigger r[j]} :: x < j < |s| ==> r[j] == s[j]
  {
    FindDistinct(s, n, x);
    ErasedAt(s, n);
    ErasedKeeps(s, n);
    hide Distinct, Put, Erased, Find;
    var e := Erased(s, n);
    FindDistinct(e, d, y);
    PutAt(e, y + 1, n);
    var r := MovedBehind(s, n, d);
    assert r == Put(e, y + 1, n);
    forall j | x < j < |s| ensures r[j] == s[j] {
      assert e[j - 1] == s[j];
    }
  }

  // In front of d, and still behind whatever was ahead of n, if n was ahead of
  // d already.
  lemma BeforePartner(s: seq<Node>, n: Node, d: Node)
    requires Distinct(s) && n != d && Before(s, n, d)
    ensures Before(MovedBefore(s, n, d), n, d)
    ensures forall a {:trigger Before(s, a, n)} :: Before(s, a, n) ==> Before(MovedBefore(s, n, d), a, n)
  {
    var x, y :| 0 <= x < y < |s| && s[x] == n && s[y] == d;
    BeforeShape(s, n, d, x, y);
    hide MovedBefore;
    var r := MovedBefore(s, n, d);
    forall a | Before(s, a, n) ensures Before(r, a, n) {
      var i, j :| 0 <= i < j < |s| && s[i] == a && s[j] == n;
      assert j == x && r[i] == a && r[y - 1] == n;
    }
  }

  lemma BehindPartner(s: seq<Node>, n: Node, d: Node)
    requires Distinct(s) && n != d && Before(s, d, n)
    ensures Before(MovedBehind(s, n, d), d, n)
    ensures forall b {:trigger Before(s, n, b)} :: Before(s, n, b) ==> Before(MovedBehind(s, n, d), n, b)
  {
    var y, x :| 0 <= y < x < |s| && s[y] == d && s[x] == n;
    BehindShape(s, n, d, y, x);
    hide MovedBehind;
    var r := MovedBehind(s, n, d);
    forall b | Before(s, n, b) ensures Before(r, n, b) {
      var i, j :| 0 <= i < j < |s| && s[i] == n && s[j] == b;
      assert i == x && r[y + 1] == n && r[j] == b;
    }
  }

  lemma PutAt(s: seq<Node>, at: nat, n: Node)
    requires at <= |s|
    ensures |Put(s, at, n)| == |s| + 1 && Put(s, at, n)[at] == n
    ensures forall i :: 0 <= i < at ==> Put(s, at, n)[i] == s[i]
    ensures forall i {:trigger Put(s, at, n)[i]} :: at < i <= |s| ==> Put(s, at, n)[i] == s[i - 1]
  {
  }

  lemma FindDistinct(s: seq<Node>, n: Node, i: nat)
    requires Distinct(s) && i < |s| && s[i] == n
    ensures Find(s, n) == i
  {
  }

  lemma StepPermutes(g: Links, s: seq<Node>, n: Node)
    requires Distinct(s) && n in s
    ensures Distinct(Step(g, s, n)) && multiset(Step(g, s, n)) == multiset(s)
  {
    hide Put, Erased, Find, Distinct, OutControlNodes, InControlNodes;
    if n.kind == "Recv" && OutControlNodes(g, n) != [] {
      MoveKeeps(s, n, Find(Erased(s, n), OutControlNodes(g, n)[0]));
    } else if n.kind == "Send" && InControlNodes(g, n) != [] {
      var e := Erased(s, n);
      var i := Find(e, InControlNodes(g, n)[0]);
      MoveKeeps(s, n, if i < |e| then i + 1 else i);
    }
  }

  // Whatever the partners, the nodes stay the same.
  lemma {:induction false} ReorderPermutes(g: Links, s: seq<Node>, order: seq<Node>)
    requires Distinct(s) && forall n :: n in order ==> n in s
    ensures Distinct(Reordered(g, s, order)) && multiset(Reordered(g, s, order)) == multiset(s)
  {
    if order != [] {
      FrontLast(order);
      ReorderPermutes(g, s, Front(order));
      var r := Reordered(g, s, Front(order));
      SameMembers(s, r);
      hide Step;
      StepPermutes(g, r, Last(order));
    }
  }

  lemma StaysValid(g: Links, s: seq<Node>)
    requires GraphOk(g, s)
    ensures GraphOk(g, Reordered(g, s, s)) && multiset(Reordered(g, s, s)) == multiset(s)
  {
    hide Reordered, HasPorts, WellLinked;
    ReorderPermutes(g, s, s);
    GraphOkPermuted(g, s, Reordered(g, s, s));
  }

  lemma SameMembers(s: seq<Node>, r: seq<Node>)
    requires multiset(s) == multiset(r)
    ensures forall m :: m in s <==> m in r
  {
    assert forall m :: m in s <==> m in multiset(s);
    assert forall m :: m in r <==> m in multiset(r);
  }

  // ------------------------------------------------------------- the order

  // Edges of any kind: all of them, or only those that a sort counts.
  type Edges = set<(Node, Node)>

  // A topological order: every edge leads from an earlier to a later node.
  ghost predicate InOrder(e: Edges, s: seq<Node>) {
    forall a, b {:trigger (a, b) in e} :: a in s && b in s && (a, b) in e ==> Before(s, a, b)
  }

  // An event with a partner; the first one decides where the event goes.
  predicate Paired(g: Links, n: Node) {
    (n.kind == "Recv" && OutControlNodes(g, n) != []) || (n.kind == "Send" && InControlNodes(g, n) != [])
  }

  function Partner(g: Links, n: Node): Node
    requires Paired(g, n)
  {
    if n.kind == "Recv" then OutControlNodes(g, n)[0] else InControlNodes(g, n)[0]
  }

  // The edges to partners are among the edges looked at.
  ghost predicate PartnersLinked(g: Links, e: Edges, s: seq<Node>) {
    forall n {:trigger Paired(g, n)} :: n in s && Paired(g, n) ==>
      Partner(g, n) in s && (if n.kind == "Recv" then (n, Partner(g, n)) in e else (Partner(g, n), n) in e)
  }

  // No further node that a Recv releases stands before the first one, and none
  // that a Send waits for behind the first one.
  ghost predicate Fits(g: Links, e: Edges, s: seq<Node>, n: Node) {
    Paired(g, n) ==>
      if n.kind == "Recv" then FitsRecv(e, s, n, Partner(g, n)) else FitsSend(e, s, n, Partner(g, n))
  }

  ghost predicate FitsRecv(e: Edges, s: seq<Node>, n: Node, d: Node) {
    forall b {:trigger (n, b) in e} :: b in s && (n, b) in e ==> b == d || Before(s, d, b)
  }

  ghost predicate FitsSend(e: Edges, s: seq<Node>, n: Node, d: Node) {
    forall a {:trigger (a, n) in e} :: a in s && (a, n) in e ==> a == d || Before(s, a, d)
  }

  lemma EitherOrder(s: seq<Node>, a: Node, b: Node)
    requires Distinct(s) && a in s && b in s
    ensures Before(s, a, b) ==> !Before(s, b, a)
    ensures a != b ==> Before(s, a, b) || Before(s, b, a)
  {
  }

  lemma PutIsBefore(s: seq<Node>, n: Node, at: nat, a: Node, b: Node)
    requires Distinct(s) && n in s && a in s && b in s && a != n && b != n && at <= |Erased(s, n)|
    ensures Before(Put(Erased(s, n), at, n), a, b) <==> Before(s, a, b)
  {
    hide Find, Erased, Put, Before, Distinct;
    var r := Put(Erased(s, n), at, n);
    MoveKeeps(s, n, at);
    SameMembers(s, r);
    EitherOrder(s, a, b);
    EitherOrder(r, a, b);
    EitherOrder(s, b, a);
    EitherOrder(r, b, a);
  }

  lemma MoveIsBefore(s: seq<Node>, n: Node, d: Node, a: Node, b: Node)
    requires Distinct(s) && n in s && a in s && b in s && a != n && b != n
    ensures Before(MovedBefore(s, n, d), a, b) <==> Before(s, a, b)
    ensures Before(MovedBehind(s, n, d), a, b) <==> Before(s, a, b)
  {
    hide Find, Erased, Put, Before, Distinct;
    var i := Find(Erased(s, n), d);
    PutIsBefore(s, n, i, a, b);
    PutIsBefore(s, n, if i < |Erased(s, n)| then i + 1 else i, a, b);
  }

  lemma RecvOrder(s: seq<Node>, n: Node, d: Node)
    requires Distinct(s) && n in s
    ensures var r := MovedBefore(s, n, d);
      && Distinct(r) && (forall m :: m in s <==> m in r)
      && forall a, b {:trigger Before(r, a, b)} :: a != n && b != n && Before(s, a, b) ==> Before(r, a, b)
  {
    hide Find, Erased, Put, Before, Distinct;
    MoveKeeps(s, n, Find(Erased(s, n), d));
    SameMembers(s, MovedBefore(s, n, d));
  }

  lemma SendOrder(s: seq<Node>, n: Node, d: Node)
    requires Distinct(s) && n in s
    ensures var r := MovedBehind(s, n, d);
      && Distinct(r) && (forall m :: m in s <==> m in r)
      && forall a, b {:trigger Before(r, a, b)} :: a != n && b != n && Before(s, a, b) ==> Before(r, a, b)
  {
    hide Find, Erased, Put, Before, Distinct;
    var i := Find(Erased(s, n), d);
    MoveKeeps(s, n, if i < |Erased(s, n)| then i + 1 else i);
    SameMembers(s, MovedBehind(s, n, d));
  }

  // A Recv ends directly ahead of d: it stands to the others as d does.
  lemma RecvSpot(s: seq<Node>, n: Node, d: Node, b: Node)
    requires Distinct(s) && b in s && b != n && b != d && Before(s, n, d)
    ensures Before(MovedBefore(s, n, d), n, b) <==> Before(s, d, b)
    ensures Before(MovedBefore(s, n, d), b, n) <==> Before(s, b, d)
  {
    hide MovedBefore, MovedBehind, Before, Distinct;
    BothIn(s, n, d);
    EitherOrder(s, d, d);
    var i := RecvPlace(s, n, d);
    MoveIsBefore(s, n, d, d, b);
    MoveIsBefore(s, n, d, b, d);
    NextTo(MovedBefore(s, n, d), n, d, i, b);
  }

  lemma Places(s: seq<Node>, a: Node, b: Node) returns (i: nat, j: nat)
    requires Before(s, a, b)
    ensures i < j < |s| && s[i] == a && s[j] == b
  {
    i, j :| 0 <= i < j < |s| && s[i] == a && s[j] == b;
  }

  lemma RecvPlace(s: seq<Node>, n: Node, d: Node) returns (i: nat)
    requires Distinct(s) && Before(s, n, d)
    ensures var r := MovedBefore(s, n, d);
      && Distinct(r) && i + 1 < |r| && r[i] == n && r[i + 1] == d
      && forall b :: b in s ==> b in r
  {
    hide MovedBefore, Before, Distinct;
    var x, y := Places(s, n, d);
    BeforeShape(s, n, d, x, y);
    RecvOrder(s, n, d);
    i := y - 1;
  }

  lemma SendSpot(s: seq<Node>, n: Node, d: Node, b: Node)
    requires Distinct(s) && b in s && b != n && b != d && Before(s, d, n)
    ensures Before(MovedBehind(s, n, d), n, b) <==> Before(s, d, b)
    ensures Before(MovedBehind(s, n, d), b, n) <==> Before(s, b, d)
  {
    hide MovedBefore, MovedBehind, Before, Distinct;
    BothIn(s, d, n);
    EitherOrder(s, d, d);
    var i := SendPlace(s, n, d);
    MoveIsBefore(s, n, d, d, b);
    MoveIsBefore(s, n, d, b, d);
    NextTo(MovedBehind(s, n, d), d, n, i, b);
  }

  lemma SendPlace(s: seq<Node>, n: Node, d: Node) returns (i: nat)
    requires Distinct(s) && Before(s, d, n)
    ensures var r := MovedBehind(s, n, d);
      && Distinct(r) && i + 1 < |r| && r[i] == d && r[i + 1] == n
      && forall b :: b in s ==> b in r
  {
    var y, x :| 0 <= y < x < |s| && s[y] == d && s[x] == n;
    BehindShape(s, n, d, y, x);
    hide MovedBehind, Before, Distinct;
    SendOrder(s, n, d);
    i := y;
  }

  // Neighbours in the list stand alike to every other node.
  lemma NextTo(r: seq<Node>, x: Node, y: Node, i: nat, b: Node)
    requires Distinct(r) && i + 1 < |r| && r[i] == x && r[i + 1] == y && b in r && b != x && b != y
    ensures Before(r, x, b) <==> Before(r, y, b)
    ensures Before(r, b, x) <==> Before(r, b, y)
  {
    var k :| 0 <= k < |r| && r[k] == b;
    OrderOfPlaces(r, i, k);
    OrderOfPlaces(r, i + 1, k);
  }

  lemma OrderOfPlaces(r: seq<Node>, i: nat, k: nat)
    requires Distinct(r) && i < |r| && k < |r|
    ensures Before(r, r[i], r[k]) <==> i < k
    ensures Before(r, r[k], r[i]) <==> k < i
  {
  }

  // Moving a Recv keeps a topological order if and only if no other node that
  // it releases stands before its partner.
  lemma RecvStepIff(e: Edges, s: seq<Node>, n: Node, d: Node)
    requires Distinct(s) && n in s && d in s && InOrder(e, s) && (n, d) in e
    ensures InOrder(e, MovedBefore(s, n, d)) <==> FitsRecv(e, s, n, d)
  {
    hide Find, Erased, Put, MovedBefore, Before, Distinct;
    EitherOrder(s, n, n);
    BeforePartner(s, n, d);
    RecvOrder(s, n, d);
    var r := MovedBefore(s, n, d);
    forall b | b in s && (n, b) in e && b != d ensures Before(r, n, b) <==> Before(s, d, b) {
      RecvSpot(s, n, d, b);
    }
    if FitsRecv(e, s, n, d) {
      forall a, b | a in r && b in r && (a, b) in e ensures Before(r, a, b) {
        assert Before(s, a, b);
      }
    }
  }

  lemma SendStepIff(e: Edges, s: seq<Node>, n: Node, d: Node)
    requires Distinct(s) && n in s && d in s && InOrder(e, s) && (d, n) in e
    ensures InOrder(e, MovedBehind(s, n, d)) <==> FitsSend(e, s, n, d)
  {
    hide Find, Erased, Put, MovedBehind, Before, Distinct;
    EitherOrder(s, n, n);
    BehindPartner(s, n, d);
    SendOrder(s, n, d);
    var r := MovedBehind(s, n, d);
    forall a | a in s && (a, n) in e && a != d ensures Before(r, a, n) <==> Before(s, a, d) {
      SendSpot(s, n, d, a);
    }
    if FitsSend(e, s, n, d) {
      forall a, b | a in r && b in r && (a, b) in e ensures Before(r, a, b) {
        assert Before(s, a, b);
      }
    }
  }

  // One move keeps a topological order if and only if the event fits.
  lemma StepOrderIff(g: Links, e: Edges, s: seq<Node>, n: Node)
    requires Distinct(s) && n in s && InOrder(e, s) && PartnersLinked(g, e, s)
    ensures InOrder(e, Step(g, s, n)) <==> Fits(g, e, s, n)
  {
    hide InOrder, FitsRecv, FitsSend, MovedBefore, MovedBehind, OutControlNodes, InControlNodes;
    if Paired(g, n) {
      if n.kind == "Recv" {
        RecvStepIff(e, s, n, Partner(g, n));
      } else {
        SendStepIff(e, s, n, Partner(g, n));
      }
    }
  }

  // ------------------------------------------------------------- whole runs

  lemma AfterPermutes(g: Links, s: seq<Node>, k: nat)
    requires Distinct(s) && k <= |s|
    ensures Distinct(After(g, s, k)) && multiset(After(g, s, k)) == multiset(s)
    ensures forall n :: n in After(g, s, k) <==> n in s
  {
    ReorderPermutes(g, s, s[..k]);
    SameMembers(s, After(g, s, k));
  }

  lemma StepIs(g: Links, s: seq<Node>, n: Node)
    ensures Step(g, s, n) ==
      if !Paired(g, n) then s
      else if n.kind == "Recv" then MovedBefore(s, n, Partner(g, n))
      else MovedBehind(s, n, Partner(g, n))
    ensures n.kind != "Recv" && n.kind != "Send" ==> !Paired(g, n)
  {
  }

  // Two nodes that are not moved stay as they are to each other.
  lemma {:induction false} KeptBetween(g: Links, s: seq<Node>, k: nat, j: nat, a: Node, b: Node)
    requires Distinct(s) && k <= j <= |s| && Before(After(g, s, k), a, b)
    requires forall i :: k <= i < j && Paired(g, s[i]) ==> s[i] != a && s[i] != b
    ensures Before(After(g, s, j), a, b)
  {
    hide After, Before, Distinct, Step, MovedBefore, MovedBehind, Paired, Partner;
    if k < j {
      KeptBetween(g, s, k, j - 1, a, b);
      AfterStep(g, s, j - 1);
      AfterPermutes(g, s, j - 1);
      var r := After(g, s, j - 1);
      StepIs(g, r, s[j - 1]);
      if Paired(g, s[j - 1]) {
        BothIn(r, a, b);
        MoveIsBefore(r, s[j - 1], Partner(g, s[j - 1]), a, b);
      }
    }
  }

  lemma BothIn(s: seq<Node>, a: Node, b: Node)
    requires Before(s, a, b)
    ensures a in s && b in s
  {
  }

  lemma KeptUpTo(g: Links, s: seq<Node>, k: nat, a: Node, b: Node)
    requires Distinct(s) && k <= |s| && a in s && b in s
    requires forall i :: 0 <= i < k && Paired(g, s[i]) ==> s[i] != a && s[i] != b
    ensures Before(After(g, s, k), a, b) <==> Before(s, a, b)
  {
    AfterPermutes(g, s, k);
    AfterNone(g, s);
    var r := After(g, s, k);
    if Before(s, a, b) {
      KeptBetween(g, s, 0, k, a, b);
    } else if a != b {
      EitherOrder(s, a, b);
      KeptBetween(g, s, 0, k, b, a);
      hide After, Before, Distinct;
      EitherOrder(r, a, b);
    } else {
      hide After, Before, Distinct;
      EitherOrder(r, a, b);
    }
  }

  // If every event fits when its turn comes, the order is kept throughout.
  lemma {:induction false} ReorderKeepsOrder(g: Links, e: Edges, s: seq<Node>, k: nat)
    requires Distinct(s) && InOrder(e, s) && PartnersLinked(g, e, s) && k <= |s|
    requires forall i :: 0 <= i < k ==> Fits(g, e, After(g, s, i), s[i])
    ensures InOrder(e, After(g, s, k))
  {
    hide Fits, Step, InOrder;
    if k == 0 {
      assert s[..0] == [];
    } else {
      ReorderKeepsOrder(g, e, s, k - 1);
      AfterStep(g, s, k - 1);
      AfterPermutes(g, s, k - 1);
      hide After;
      var r := After(g, s, k - 1);
      assert PartnersLinked(g, e, r);
      StepOrderIff(g, e, r, s[k - 1]);
    }
  }

  // No Recv releases another event, and no Send waits for one.
  ghost predicate EventsApart(g: Links, e: Edges, s: seq<Node>) {
    forall a, b {:trigger (a, b) in e} :: a in s && b in s && (a, b) in e ==>
      !(Paired(g, a) && a.kind == "Recv" && Paired(g, b)) && !(Paired(g, b) && b.kind == "Send" && Paired(g, a))
  }

  lemma AheadOf(s: seq<Node>, k: nat, b: Node)
    requires Distinct(s) && k < |s| && Before(s, s[k], b)
    ensures forall i :: 0 <= i <= k ==> s[i] != b
  {
  }

  // What a Recv sees when its turn comes is what it saw at the start: none of
  // the nodes behind it has been moved.
  lemma RecvFitsLater(g: Links, e: Edges, s: seq<Node>, k: nat)
    requires Distinct(s) && InOrder(e, s) && PartnersLinked(g, e, s) && k < |s|
    requires Paired(g, s[k]) && s[k].kind == "Recv"
    ensures Fits(g, e, After(g, s, k), s[k]) <==> Fits(g, e, s, s[k])
  {
    var n, r := s[k], After(g, s, k);
    var d := Partner(g, n);
    AfterPermutes(g, s, k);
    AheadOf(s, k, d);
    forall b | b in s && (n, b) in e ensures Before(r, d, b) <==> Before(s, d, b) {
      AheadOf(s, k, b);
      KeptUpTo(g, s, k, d, b);
    }
    hide After, Before, Partner, Paired, InOrder, Distinct;
    assert FitsRecv(e, r, n, d) <==> FitsRecv(e, s, n, d);
  }

  lemma SendFitsLater(g: Links, e: Edges, s: seq<Node>, k: nat)
    requires Distinct(s) && PartnersLinked(g, e, s) && EventsApart(g, e, s) && k < |s|
    requires Paired(g, s[k]) && s[k].kind == "Send"
    ensures Fits(g, e, After(g, s, k), s[k]) <==> Fits(g, e, s, s[k])
  {
    var n, r := s[k], After(g, s, k);
    var d := Partner(g, n);
    AfterPermutes(g, s, k);
    forall a | a in s && (a, n) in e ensures Before(r, a, d) <==> Before(s, a, d) {
      KeptUpTo(g, s, k, a, d);
    }
    hide After, Before, Partner, Paired, InOrder, Distinct;
    assert FitsSend(e, r, n, d) <==> FitsSend(e, s, n, d);
  }

  lemma FitsLater(g: Links, e: Edges, s: seq<Node>, k: nat)
    requires Distinct(s) && InOrder(e, s) && PartnersLinked(g, e, s) && EventsApart(g, e, s) && k < |s|
    ensures Fits(g, e, After(g, s, k), s[k]) <==> Fits(g, e, s, s[k])
  {
    hide After, InOrder, EventsApart, PartnersLinked, OutControlNodes, InControlNodes, FitsRecv, FitsSend;
    if Paired(g, s[k]) {
      if s[k].kind == "Recv" {
        RecvFitsLater(g, e, s, k);
      } else {
        SendFitsLater(g, e, s, k);
      }
    }
  }

  // The first event that does not fit puts the list out of order for good.
  lemma MisfitStays(g: Links, e: Edges, s: seq<Node>, k: nat)
    requires Distinct(s) && InOrder(e, s) && PartnersLinked(g, e, s) && EventsApart(g, e, s) && k < |s|
    requires InOrder(e, After(g, s, k)) && !Fits(g, e, s, s[k])
    ensures !InOrder(e, After(g, s, |s|))
  {
    var n, r := s[k], After(g, s, k);
    var d := Partner(g, n);
    FitsLater(g, e, s, k);
    AfterPermutes(g, s, k);
    AfterPermutes(g, s, |s|);
    AfterStep(g, s, k);
    var last := After(g, s, |s|);
    hide After, OutControlNodes, InControlNodes, MovedBefore, MovedBehind;
    if n.kind == "Recv" {
      var b :| b in r && (n, b) in e && b != d && !Before(r, d, b);
      EitherOrder(r, n, n);
      EitherOrder(r, d, b);
      RecvSpot(r, n, d, b);
      StaysBehind(g, s, k, b, n);
      EitherOrder(last, b, n);
    } else {
      var a :| a in r && (a, n) in e && a != d && !Before(r, a, d);
      EitherOrder(r, n, n);
      EitherOrder(r, d, a);
      SendSpot(r, n, d, a);
      StaysBehind(g, s, k, n, a);
      EitherOrder(last, n, a);
    }
  }

  lemma StaysBehind(g: Links, s: seq<Node>, k: nat, a: Node, b: Node)
    requires Distinct(s) && k < |s| && Before(After(g, s, k + 1), a, b)
    requires (a == s[k] || !Paired(g, a)) && (b == s[k] || !Paired(g, b))
    ensures Before(After(g, s, |s|), a, b)
  {
    hide After, Paired;
    KeptBetween(g, s, k + 1, |s|, a, b);
  }

  // Reordering keeps a topological order exactly when, in the list as it was,
  // every event fits.
  lemma ReorderOrderIff(g: Links, e: Edges, s: seq<Node>)
    requires Distinct(s) && InOrder(e, s) && PartnersLinked(g, e, s) && EventsApart(g, e, s)
    ensures InOrder(e, Reordered(g, s, s)) <==> forall n :: n in s ==> Fits(g, e, s, n)
  {
    AfterAll(g, s);
    hide InOrder, Fits, PartnersLinked, EventsApart, Reordered;
    if forall n :: n in s ==> Fits(g, e, s, n) {
      forall i | 0 <= i < |s| ensures Fits(g, e, After(g, s, i), s[i]) {
        FitsLater(g, e, s, i);
      }
      ReorderKeepsOrder(g, e, s, |s|);
    } else {
      var k := FirstMisfit(g, e, s);
      forall i | 0 <= i < k ensures Fits(g, e, After(g, s, i), s[i]) {
        FitsLater(g, e, s, i);
      }
      ReorderKeepsOrder(g, e, s, k);
      MisfitStays(g, e, s, k);
    }
  }

  lemma FirstMisfit(g: Links, e: Edges, s: seq<Node>) returns (k: nat)
    requires exists n :: n in s && !Fits(g, e, s, n)
    ensures k < |s| && !Fits(g, e, s, s[k]) && forall i :: 0 <= i < k ==> Fits(g, e, s, s[i])
  {
    hide Fits;
    k := 0;
    while Fits(g, e, s, s[k])
      invariant k < |s| && forall i :: 0 <= i < k ==> Fits(g, e, s, s[i])
      decreases |s| - k
    {
      assert exists n :: n in s[k + 1..] && !Fits(g, e, s, n) by {
        var n :| n in s && !Fits(g, e, s, n);
        var i :| 0 <= i < |s| && s[i] == n;
        assert s[k + 1..][i - k - 1] == n;
      }
      k := k + 1;
    }
  }

  // ------------------------------------------------------------- graphs

  // All edges between the nodes s, and those that the sorts count.
  ghost function EdgesAmong(g: Links, s: seq<Node>): Edges {
    set a, b | a in s && b in s && Adjacent(g, a, b) :: (a, b)
  }

  ghost function CountedAmong(g: Links, s: seq<Node>): Edges {
    set a, b | a in s && b in s && Feeds(g, a, b) :: (a, b)
  }

  lemma {:induction false} OwnersFrom(s: seq<Port>, n: Node)
    requires n in Owners(s)
    ensures exists q :: q in s && q.node == n
  {
    FrontLast(s);
    if n != Last(s).node {
      OwnersFrom(Front(s), n);
    }
  }

  lemma {:induction false} OutCtrlIn(s: seq<Port>)
    ensures forall q :: q in OutCtrlOf(s) ==> q in s
  {
    if s != [] {
      FrontLast(s);
      OutCtrlIn(Front(s));
    }
  }

  lemma {:induction false} DataControlFrom(g: Links, n: Node, k: nat, d: Node) returns (p: Port, q: Port)
    requires d in DataControlNodes(g, n, k)
    ensures p.IsOut() && p.node == n && p in g && q in g[p] && q.node == d
  {
    if d in DataControlNodes(g, n, k - 1) {
      p, q := DataControlFrom(g, n, k - 1, d);
    } else {
      p := OutData(n, k - 1);
      OwnersFrom(InCtrlOf(At(g, p)), d);
      FilterIn(At(g, p));
      q :| q in InCtrlOf(At(g, p)) && q.node == d;
    }
  }

  // The edge over which an event knows its partner.
  lemma PartnerEdge(g: Links, s: seq<Node>, n: Node) returns (p: Port, q: Port)
    requires GraphOk(g, s) && n in s && Paired(g, n)
    ensures p in g && q in g && q in g[p] && p in g[q] && p.IsOut() && q.IsIn()
    ensures if n.kind == "Recv" then p.node == n && q.node == Partner(g, n)
            else p.node == Partner(g, n) && q.node == n && q.InCtrl?
  {
    var d := Partner(g, n);
    if n.kind == "Recv" {
      if d in DataControlNodes(g, n, n.outputs) {
        p, q := DataControlFrom(g, n, n.outputs, d);
      } else {
        p := OutCtrl(n);
        OwnersFrom(At(g, p), d);
        q :| q in At(g, p) && q.node == d;
      }
      PeersAgree(g, p, q);
    } else {
      q := InCtrl(n);
      OwnersFrom(OutCtrlOf(At(g, q)), d);
      OutCtrlIn(At(g, q));
      p :| p in OutCtrlOf(At(g, q)) && p.node == d;
      PeersAgree(g, q, p);
    }
  }

  // A partner belongs to the graph, and its edge is one that the sorts count.
  lemma PartnerFed(g: Links, s: seq<Node>, n: Node)
    requires GraphOk(g, s) && n in s && Paired(g, n)
    ensures Partner(g, n) in s
    ensures var a, b := if n.kind == "Recv" then n else Partner(g, n), if n.kind == "Recv" then Partner(g, n) else n;
      Adjacent(g, a, b) && Feeds(g, a, b)
  {
    hide OutControlNodes, InControlNodes;
    var p, q := PartnerEdge(g, s, n);
    assert q in g[p] && p in g[q];
    PortsOfNode(q.node);
    var k :| 0 <= k < |g[q]| && g[q][k] == p;
    assert CountedEntry(g, q, k, p.node);
    FeedsMeaning(g, p.node, q.node);
  }

  lemma AmongLinked(g: Links, s: seq<Node>)
    requires GraphOk(g, s)
    ensures PartnersLinked(g, EdgesAmong(g, s), s) && PartnersLinked(g, CountedAmong(g, s), s)
  {
    hide GraphOk, Feeds, Adjacent, Paired, Partner;
    forall n | n in s && Paired(g, n)
      ensures Partner(g, n) in s
      ensures n.kind == "Recv" ==> (n, Partner(g, n)) in EdgesAmong(g, s) && (n, Partner(g, n)) in CountedAmong(g, s)
      ensures n.kind != "Recv" ==> (Partner(g, n), n) in EdgesAmong(g, s) && (Partner(g, n), n) in CountedAmong(g, s)
    {
      PartnerFed(g, s, n);
    }
  }

  // For a graph whose events stand apart, reordering keeps the order of all
  // edges exactly when every event fits, and so the order that the sorts make.
  lemma ReorderGraphIff(g: Links, s: seq<Node>, counted: bool)
    requires GraphOk(g, s)
    requires var e := if counted then CountedAmong(g, s) else EdgesAmong(g, s); InOrder(e, s) && EventsApart(g, e, s)
    ensures var e := if counted then CountedAmong(g, s) else EdgesAmong(g, s);
      InOrder(e, Reordered(g, s, s)) <==> forall n :: n in s ==> Fits(g, e, s, n)
  {
    AmongLinked(g, s);
    ReorderOrderIff(g, if counted then CountedAmong(g, s) else EdgesAmong(g, s), s);
  }

  // ------------------------------------------------------------- examples

  lemma MovedAhead(s: seq<Node>, i: nat, j: nat)
    requires Distinct(s) && i < j < |s|
    ensures MovedBefore(s, s[i], s[j]) == s[..i] + s[i + 1..j] + [s[i]] + s[j..]
  {
    hide Find, Distinct;
    FindDistinct(s, s[i], i);
    ErasedKeeps(s, s[i]);
    var e := Erased(s, s[i]);
    assert e == s[..i] + s[i + 1..];
    hide Erased;
    assert e[..j - 1] == s[..i] + s[i + 1..j];
    assert e[j - 1..] == s[j..];
    assert e[j - 1] == s[j];
    FindDistinct(e, s[j], j - 1);
  }

  lemma MovedBack(s: seq<Node>, i: nat, j: nat)
    requires Distinct(s) && j < i < |s|
    ensures MovedBehind(s, s[i], s[j]) == s[..j + 1] + [s[i]] + s[j + 1..i] + s[i + 1..]
  {
    hide Find, Distinct;
    FindDistinct(s, s[i], i);
    ErasedKeeps(s, s[i]);
    var e := Erased(s, s[i]);
    assert e == s[..i] + s[i + 1..];
    hide Erased;
    assert e[..j + 1] == s[..j + 1];
    assert e[j + 1..] == s[j + 1..i] + s[i + 1..];
    assert e[j] == s[j];
    FindDistinct(e, s[j], j);
  }

  predicate NoData(n: Node) {
    n.inputs == 0 && n.outputs == 0
  }

  // Without data anchors the first control peer is the partner.
  lemma FirstControlPeer(g: Links, n: Node)
    requires NoData(n)
    ensures n.kind == "Recv" && At(g, OutCtrl(n)) != [] ==>
      Paired(g, n) && Partner(g, n) == At(g, OutCtrl(n))[0].node
    ensures n.kind == "Send" && At(g, InCtrl(n)) != [] && At(g, InCtrl(n))[0].OutCtrl? ==>
      Paired(g, n) && Partner(g, n) == At(g, InCtrl(n))[0].node
  {
    FirstOwner(At(g, OutCtrl(n)));
    FirstOutCtrl(At(g, InCtrl(n)));
    FirstOwner(OutCtrlOf(At(g, InCtrl(n))));
    assert DataControlNodes(g, n, 0) == [];
  }

  lemma {:induction false} FirstOwner(s: seq<Port>)
    ensures s != [] ==> Owners(s) != [] && Owners(s)[0] == s[0].node
  {
    if |s| > 1 {
      FirstOwner(Front(s));
    }
  }

  lemma {:induction false} FirstOutCtrl(s: seq<Port>)
    ensures s != [] && s[0].OutCtrl? ==> OutCtrlOf(s) != [] && OutCtrlOf(s)[0] == s[0]
  {
    if |s| > 1 {
      FirstOutCtrl(Front(s));
    }
  }

  // A Recv n that releases d and then b.
  function TwoReleased(n: Node, b: Node, d: Node): Links {
    map[OutCtrl(n) := [InCtrl(d), InCtrl(b)], InCtrl(d) := [OutCtrl(n)], InCtrl(b) := [OutCtrl(n)],
        InCtrl(n) := [], OutCtrl(b) := [], OutCtrl(d) := []]
  }

  lemma ControlGraph(g: Links, s: seq<Node>)
    requires Distinct(s) && forall n :: n in s ==> NoData(n)
    requires forall p: Port :: p in g <==> p.node in s && (p.InCtrl? || p.OutCtrl?)
    requires forall p {:trigger g[p]} :: p in g ==>
      Distinct(g[p]) && forall q {:trigger q in g[p]} :: q in g[p] ==> q in g && p in g[q] && p.IsOut() == q.IsIn()
    ensures GraphOk(g, s)
  {
    forall a, b | a in g && b in g ensures Mult(g, a, b) == Mult(g, b, a) {
      DistinctOnce(g[a], b);
      DistinctOnce(g[b], a);
    }
    forall n | n in s ensures HasPorts(g, n) {
      PortsOfNode(n);
    }
  }

  // Before: n, b, d. The Recv goes directly before d, and so behind b.
  lemma OvertakenSuccessor(n: Node, b: Node, d: Node)
    requires n.kind == "Recv" && b.kind == d.kind == "Add" && b != d && NoData(n) && NoData(b) && NoData(d)
    ensures var g, s := TwoReleased(n, b, d), [n, b, d];
      && GraphOk(g, s) && Reordered(g, s, s) == [b, n, d]
      && InOrder({(n, d), (n, b)}, s) && !InOrder({(n, d), (n, b)}, Reordered(g, s, s))
  {
    var g, s, r := TwoReleased(n, b, d), [n, b, d], [b, n, d];
    TwoReleasedOk(n, b, d);
    hide GraphOk, Paired, Partner, Reordered, Step, MovedBefore, TwoReleased;
    AfterStep(g, s, 0);
    AfterStep(g, s, 1);
    AfterStep(g, s, 2);
    assert s[..3] == s;
    StepIs(g, s, n);
    StepIs(g, r, b);
    StepIs(g, r, d);
    MovedAhead(s, 0, 2);
    assert s[..0] + s[1..2] + [n] + s[2..] == r;
    AfterNone(g, s);
    OvertakenPlaces(n, b, d);
  }

  lemma TwoReleasedOk(n: Node, b: Node, d: Node)
    requires n.kind == "Recv" && b.kind == d.kind == "Add" && b != d && NoData(n) && NoData(b) && NoData(d)
    ensures var g := TwoReleased(n, b, d); GraphOk(g, [n, b, d]) && Paired(g, n) && Partner(g, n) == d
  {
    hide GraphOk, Paired, Partner, OutControlNodes, InControlNodes;
    ControlGraph(TwoReleased(n, b, d), [n, b, d]);
    FirstControlPeer(TwoReleased(n, b, d), n);
  }

  lemma OvertakenPlaces(n: Node, b: Node, d: Node)
    requires n != b && n != d && b != d
    ensures InOrder({(n, d), (n, b)}, [n, b, d]) && !InOrder({(n, d), (n, b)}, [b, n, d])
  {
    var s, r := [n, b, d], [b, n, d];
    assert s[0] == n && s[1] == b && s[2] == d && r[0] == b && r[1] == n;
    EitherOrder(r, n, b);
    assert (n, b) in {(n, d), (n, b)};
  }

  // A Recv n that releases d and then b, which is a Recv itself and releases c.
  function RecvReleased(n: Node, b: Node, d: Node, c: Node): Links {
    map[OutCtrl(n) := [InCtrl(d), InCtrl(b)], InCtrl(d) := [OutCtrl(n)], InCtrl(b) := [OutCtrl(n)],
        OutCtrl(b) := [InCtrl(c)], InCtrl(c) := [OutCtrl(b)], InCtrl(n) := [], OutCtrl(d) := [], OutCtrl(c) := []]
  }

  lemma RecvReleasedOk(n: Node, b: Node, d: Node, c: Node)
    requires n.kind == b.kind == "Recv" && c.kind == d.kind == "Add" && n != b && c != d
    requires NoData(n) && NoData(b) && NoData(c) && NoData(d)
    ensures var g := RecvReleased(n, b, d, c);
      GraphOk(g, [n, b, d, c]) && Paired(g, n) && Partner(g, n) == d && Paired(g, b) && Partner(g, b) == c
  {
    var g := RecvReleased(n, b, d, c);
    hide GraphOk, Paired, Partner, OutControlNodes, InControlNodes;
    ControlGraph(g, [n, b, d, c]);
    FirstControlPeer(g, n);
    FirstControlPeer(g, b);
  }

  lemma RecvReleasedRun(g: Links, n: Node, b: Node, d: Node, c: Node)
    requires n.kind == b.kind == "Recv" && c.kind == d.kind == "Add" && n != b && c != d
    requires Paired(g, n) && Partner(g, n) == d && Paired(g, b) && Partner(g, b) == c
    ensures Reordered(g, [n, b, d, c], [n, b, d, c]) == [n, d, b, c]
  {
    var s, t, r := [n, b, d, c], [b, n, d, c], [n, d, b, c];
    hide Reordered, Step, Paired, Partner, MovedBefore, MovedBehind;
    RunOfFour(g, s);
    StepIs(g, s, n);
    StepIs(g, t, b);
    StepIs(g, r, d);
    StepIs(g, r, c);
    MovedAhead(s, 0, 2);
    assert s[..0] + s[1..2] + [n] + s[2..] == t;
    MovedAhead(t, 0, 3);
    assert t[..0] + t[1..3] + [b] + t[3..] == r;
  }

  // Where events are neighbours a later move can repair the order: n does not
  // fit, b overtakes it back.
  lemma RepairedOrder(n: Node, b: Node, d: Node, c: Node)
    requires n.kind == b.kind == "Recv" && c.kind == d.kind == "Add" && n != b && c != d
    requires NoData(n) && NoData(b) && NoData(c) && NoData(d)
    ensures var g, s, e := RecvReleased(n, b, d, c), [n, b, d, c], {(n, d), (n, b), (b, c)};
      && GraphOk(g, s) && InOrder(e, s) && !Fits(g, e, s, n)
      && Reordered(g, s, s) == [n, d, b, c] && InOrder(e, Reordered(g, s, s))
  {
    hide GraphOk, Reordered, Paired, Partner, RecvReleased, FitsRecv, FitsSend, InOrder;
    RecvReleasedOk(n, b, d, c);
    RecvReleasedRun(RecvReleased(n, b, d, c), n, b, d, c);
    RepairedPlaces(n, b, d, c);
  }

  lemma RepairedPlaces(n: Node, b: Node, d: Node, c: Node)
    requires n != b && n != d && n != c && b != d && b != c && d != c
    ensures var e, s := {(n, d), (n, b), (b, c)}, [n, b, d, c];
      InOrder(e, s) && !FitsRecv(e, s, n, d) && InOrder(e, [n, d, b, c])
  {
    hide Before;
    var s, r := [n, b, d, c], [n, d, b, c];
    FourInOrder(s);
    FourInOrder(r);
    EitherOrder(s, b, d);
    assert (n, b) in {(n, d), (n, b), (b, c)};
  }

  // A Send m that waits for d and then for a, which is a Recv and releases x
  // and then m.
  function RecvAwaited(a: Node, d: Node, x: Node, m: Node): Links {
    map[OutCtrl(a) := [InCtrl(x), InCtrl(m)], InCtrl(x) := [OutCtrl(a)], InCtrl(m) := [OutCtrl(d), OutCtrl(a)],
        OutCtrl(d) := [InCtrl(m)], InCtrl(a) := [], InCtrl(d) := [], OutCtrl(x) := [], OutCtrl(m) := []]
  }

  lemma RecvAwaitedOk(a: Node, d: Node, x: Node, m: Node)
    requires a.kind == "Recv" && m.kind == "Send" && d.kind == x.kind == "Add" && d != x
    requires NoData(a) && NoData(d) && NoData(x) && NoData(m)
    ensures var g := RecvAwaited(a, d, x, m);
      GraphOk(g, [a, d, x, m]) && Paired(g, a) && Partner(g, a) == x && Paired(g, m) && Partner(g, m) == d
  {
    var g := RecvAwaited(a, d, x, m);
    hide GraphOk, Paired, Partner, OutControlNodes, InControlNodes;
    ControlGraph(g, [a, d, x, m]);
    FirstControlPeer(g, a);
    FirstControlPeer(g, m);
  }

  lemma RecvAwaitedRun(g: Links, a: Node, d: Node, x: Node, m: Node)
    requires a.kind == "Recv" && m.kind == "Send" && d.kind == x.kind == "Add" && d != x
    requires Paired(g, a) && Partner(g, a) == x && Paired(g, m) && Partner(g, m) == d
    ensures Reordered(g, [a, d, x, m], [a, d, x, m]) == [d, m, a, x]
  {
    var s, t, r := [a, d, x, m], [d, a, x, m], [d, m, a, x];
    hide Reordered, Step, Paired, Partner, MovedBefore, MovedBehind;
    RunOfFour(g, s);
    StepIs(g, s, a);
    StepIs(g, t, d);
    StepIs(g, t, x);
    StepIs(g, t, m);
    MovedAhead(s, 0, 2);
    assert s[..0] + s[1..2] + [a] + s[2..] == t;
    MovedBack(t, 3, 0);
    assert t[..1] + [m] + t[1..3] + t[4..] == r;
  }

  // And it can break the order although every event fits.
  lemma BrokenOrder(a: Node, d: Node, x: Node, m: Node)
    requires a.kind == "Recv" && m.kind == "Send" && d.kind == x.kind == "Add" && d != x
    requires NoData(a) && NoData(d) && NoData(x) && NoData(m)
    ensures var g, s, e := RecvAwaited(a, d, x, m), [a, d, x, m], {(a, x), (a, m), (d, m)};
      && GraphOk(g, s) && InOrder(e, s) && (forall n :: n in s ==> Fits(g, e, s, n))
      && Reordered(g, s, s) == [d, m, a, x] && !InOrder(e, Reordered(g, s, s))
  {
    hide GraphOk, Reordered, Paired, Partner, RecvAwaited, FitsRecv, FitsSend, InOrder, Step, MovedBefore, MovedBehind;
    var g, s, e := RecvAwaited(a, d, x, m), [a, d, x, m], {(a, x), (a, m), (d, m)};
    RecvAwaitedOk(a, d, x, m);
    RecvAwaitedRun(g, a, d, x, m);
    BrokenPlaces(a, d, x, m);
    StepIs(g, s, d);
    StepIs(g, s, x);
    assert forall n :: n in s <==> n == a || n == d || n == x || n == m;
  }

  lemma BrokenPlaces(a: Node, d: Node, x: Node, m: Node)
    requires a != d && a != x && a != m && d != x && d != m && x != m
    ensures var e, s := {(a, x), (a, m), (d, m)}, [a, d, x, m];
      InOrder(e, s) && FitsRecv(e, s, a, x) && FitsSend(e, s, m, d) && !InOrder(e, [d, m, a, x])
  {
    var s, r := [a, d, x, m], [d, m, a, x];
    hide Before;
    FourInOrder(s);
    FourInOrder(r);
    EitherOrder(r, a, m);
    assert (a, m) in {(a, x), (a, m), (d, m)};
  }

  lemma FourInOrder(s: seq<Node>)
    requires |s| == 4
    ensures Before(s, s[0], s[1]) && Before(s, s[0], s[2]) && Before(s, s[0], s[3])
    ensures Before(s, s[1], s[2]) && Before(s, s[1], s[3]) && Before(s, s[2], s[3])
  {
  }

  lemma RunOfFour(g: Links, s: seq<Node>)
    requires |s| == 4
    ensures Reordered(g, s, s) == Step(g, Step(g, Step(g, Step(g, s, s[0]), s[1]), s[2]), s[3])
  {
    hide Step;
    AfterStep(g, s, 0);
    AfterStep(g, s, 1);
    AfterStep(g, s, 2);
    AfterStep(g, s, 3);
    assert s[..4] == s && s[..0] == [];
  }
}
