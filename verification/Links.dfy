// The shared graph state: nodes, the ports that anchors stand on, and the peer
// lists that make up the edges. The state of a whole graph is summarised by a
// `Links` value, on which every algorithm of the project is specified.
module Links {

  // A node with the data that never changes while a graph is rewritten.
  // Only the identifier is overwritten (by the topological sort).
  class Node {
    const name: string
    const kind: string
    const inputs: nat
    const outputs: nat
    const subgraphs: seq<string>  // instance names of the subgraphs it owns
    var id: int

    constructor (name: string, kind: string, inputs: nat, outputs: nat, subgraphs: seq<string>, id: int)
      ensures this.name == name && this.kind == kind && this.inputs == inputs && this.outputs == outputs
      ensures this.subgraphs == subgraphs && this.id == id
    {
      this.name, this.kind, this.inputs, this.outputs := name, kind, inputs, outputs;
      this.subgraphs, this.id := subgraphs, id;
    }
  }

  // The identity of an anchor: what the Equal overloads compare.
  datatype Port =
    | InData(node: Node, idx: nat)
    | OutData(node: Node, idx: nat)
    | InCtrl(node: Node)
    | OutCtrl(node: Node)
  {
    predicate IsOut() {
      OutData? || OutCtrl?
    }

    predicate IsIn() {
      InData? || InCtrl?
    }
  }

  // For every port its peers, in list order.
  type Links = map<Port, seq<Port>>

  // How often b occurs among the peers of a.
  function Mult(g: Links, a: Port, b: Port): nat
    requires a in g
  {
    multiset(g[a])[b]
  }

  ghost predicate Symmetric(g: Links) {
    forall a, b {:trigger Mult(g, a, b)} :: a in g && b in g ==> Mult(g, a, b) == Mult(g, b, a)
  }

  // Peers are ports of the same state, and an out port only meets in ports.
  ghost predicate Closed(g: Links) {
    forall a, b {:trigger b in g[a]} :: a in g && b in g[a] ==> b in g && a.IsOut() == b.IsIn()
  }

  // No anchor has a peer.
  ghost predicate Bare(g: Links) {
    forall p {:trigger g[p]} :: p in g ==> g[p] == []
  }

  ghost predicate WellLinked(g: Links) {
    Symmetric(g) && Closed(g)
  }

  ghost predicate Distinct<T>(s: seq<T>) {
    forall i, j :: 0 <= i < j < |s| ==> s[i] != s[j]
  }

  // Different nodes have different names.
  ghost predicate UniqueNames(nodes: seq<Node>) {
    forall a, b :: a in nodes && b in nodes && a.name == b.name ==> a == b
  }

  // x occurs before y.
  ghost predicate Before<T>(s: seq<T>, x: T, y: T) {
    exists i, j :: 0 <= i < j < |s| && s[i] == x && s[j] == y
  }

  ghost function NodeSet(nodes: seq<Node>): set<Node> {
    set n | n in nodes
  }

  // The peers of a port, none for a port outside the state.
  function At(g: Links, p: Port): seq<Port> {
    if p in g then g[p] else []
  }

  function Last<T>(s: seq<T>): T
    requires s != []
  {
    s[|s| - 1]
  }

  function Front<T>(s: seq<T>): seq<T>
    requires s != []
  {
    s[..|s| - 1]
  }

  lemma FrontLast<T>(s: seq<T>)
    requires s != []
    ensures s == Front(s) + [Last(s)]
  {
  }

  function Reversed<T>(s: seq<T>): (r: seq<T>)
    ensures |r| == |s|
  {
    if s == [] then [] else [Last(s)] + Reversed(Front(s))
  }

  lemma Associative<T>(s: seq<T>, x: seq<T>, y: seq<T>)
    ensures s + x + y == s + (x + y)
  {
  }

  // The peers of an out anchor that are data inputs, and those that are
  // control inputs.
  function InDataOf(s: seq<Port>): seq<Port> {
    if s == [] then [] else InDataOf(Front(s)) + if Last(s).InData? then [Last(s)] else []
  }

  function InCtrlOf(s: seq<Port>): seq<Port> {
    if s == [] then [] else InCtrlOf(Front(s)) + if Last(s).InCtrl? then [Last(s)] else []
  }

  // The peers of an in anchor that are control outputs, and data outputs.
  function OutCtrlOf(s: seq<Port>): seq<Port> {
    if s == [] then [] else OutCtrlOf(Front(s)) + if Last(s).OutCtrl? then [Last(s)] else []
  }

  function OutDataOf(s: seq<Port>): seq<Port> {
    if s == [] then [] else OutDataOf(Front(s)) + if Last(s).OutData? then [Last(s)] else []
  }

  function RemoveFirst<T(==)>(s: seq<T>, x: T): seq<T> {
    if s == [] then []
    else if s[0] == x then s[1..]
    else [s[0]] + RemoveFirst(s[1..], x)
  }

  function ReplaceFirst<T(==)>(s: seq<T>, x: T, y: T): seq<T> {
    if s == [] then []
    else if s[0] == x then [y] + s[1..]
    else [s[0]] + ReplaceFirst(s[1..], x, y)
  }

  lemma {:induction false} RemoveFirstMultiset<T>(s: seq<T>, x: T)
    ensures multiset(RemoveFirst(s, x)) == multiset(s) - multiset{x}
  {
    if s != [] {
      assert s == [s[0]] + s[1..];
      if s[0] != x {
        RemoveFirstMultiset(s[1..], x);
      }
    }
  }

  lemma {:induction false} RemoveFirstElements<T>(s: seq<T>, x: T)
    ensures x !in s ==> RemoveFirst(s, x) == s
    ensures x in s ==> |RemoveFirst(s, x)| == |s| - 1
    ensures forall y :: y in RemoveFirst(s, x) ==> y in s
  {
    if s != [] {
      RemoveFirstElements(s[1..], x);
    }
  }

  lemma {:induction false} ReplaceFirstMultiset<T>(s: seq<T>, x: T, y: T)
    requires x in s
    ensures multiset(ReplaceFirst(s, x, y)) == multiset(s) - multiset{x} + multiset{y}
    ensures forall z :: z in ReplaceFirst(s, x, y) ==> z in s || z == y
  {
    assert s == [s[0]] + s[1..];
    if s[0] == x {
      assert multiset([y] + s[1..]) == multiset{y} + multiset(s[1..]);
    } else {
      ReplaceFirstMultiset(s[1..], x, y);
      var r := ReplaceFirst(s[1..], x, y);
      assert multiset([s[0]] + r) == multiset{s[0]} + multiset(r);
    }
  }

  lemma CutBehind<T>(s: seq<T>, y: T, i: nat)
    requires 0 < i < |s|
    ensures s[..i] + s[i + 1..] == [s[0]] + (s[1..][..i - 1] + s[1..][i..])
    ensures s[i := y] == [s[0]] + s[1..][i - 1 := y]
  {
  }

  // The first occurrence of x is at i, so erasing or overwriting position i
  // is removing or replacing the first occurrence.
  lemma {:induction false} FirstAt<T>(s: seq<T>, x: T, y: T, i: nat)
    requires i < |s| && s[i] == x
    requires forall k :: 0 <= k < i ==> s[k] != x
    ensures RemoveFirst(s, x) == s[..i] + s[i + 1..]
    ensures ReplaceFirst(s, x, y) == s[i := y]
  {
    if i > 0 {
      FirstAt(s[1..], x, y, i - 1);
      CutBehind(s, y, i);
    }
  }

  // ---------------------------------------------------------------- one step

  // LinkTo / LinkFrom refuse only a data edge into an occupied data input.
  predicate CanLink(g: Links, a: Port, b: Port)
    requires b in g
  {
    !(a.OutData? && b.InData? && g[b] != [])
  }

  function Linked(g: Links, a: Port, b: Port): Links
    requires a in g && b in g
  {
    g[a := g[a] + [b]][b := g[b] + [a]]
  }

  predicate CanUnlink(g: Links, a: Port, b: Port)
    requires a in g && b in g
  {
    b in g[a] && a in g[b]
  }

  function Unlinked(g: Links, a: Port, b: Port): Links
    requires a in g && b in g
  {
    g[a := RemoveFirst(g[a], b)][b := RemoveFirst(g[b], a)]
  }

  lemma LinkedCounts(g: Links, a: Port, b: Port)
    requires a in g && b in g && a != b
    ensures Linked(g, a, b).Keys == g.Keys
    ensures forall x, y :: x in g ==>
      Mult(Linked(g, a, b), x, y) == Mult(g, x, y) + if (x == a && y == b) || (x == b && y == a) then 1 else 0
  {
  }

  lemma LinkedKeeps(g: Links, a: Port, b: Port)
    requires WellLinked(g) && a in g && b in g && a.IsOut() && b.IsIn()
    ensures WellLinked(Linked(g, a, b))
  {
    LinkedCounts(g, a, b);
  }

  lemma UnlinkedCounts(g: Links, a: Port, b: Port)
    requires a in g && b in g && a != b && CanUnlink(g, a, b)
    ensures Unlinked(g, a, b).Keys == g.Keys
    ensures forall x, y :: x in g ==>
      Mult(Unlinked(g, a, b), x, y) == Mult(g, x, y) - if (x == a && y == b) || (x == b && y == a) then 1 else 0
  {
    RemoveFirstMultiset(g[a], b);
    RemoveFirstMultiset(g[b], a);
  }

  lemma UnlinkedKeeps(g: Links, a: Port, b: Port)
    requires WellLinked(g) && a in g && b in g && a != b && CanUnlink(g, a, b)
    ensures WellLinked(Unlinked(g, a, b))
  {
    UnlinkedCounts(g, a, b);
    RemoveFirstElements(g[a], b);
    RemoveFirstElements(g[b], a);
  }

  // In a symmetric state an edge can always be removed from either end.
  lemma PeersAgree(g: Links, a: Port, b: Port)
    requires WellLinked(g) && a in g && b in g[a]
    ensures b in g && CanUnlink(g, a, b)
  {
    assert Mult(g, a, b) == Mult(g, b, a);
  }
}
