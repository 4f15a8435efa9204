// Anchors: the mutable doubly linked multigraph. Every operation changes the
// peer lists of two (or, for ReplacePeer, four) anchors at once; each is
// proved against a function on `Links`, and the symmetry of the peer lists is
// proved for whole runs of operations.
module Anchors {
  import opened Links

  // The anchors of a graph, by the port each stands on.
  type Universe = map<Port, Anchor>

  function PortsOf(s: seq<Anchor>): (r: seq<Port>)
    ensures |r| == |s|
    ensures forall i :: 0 <= i < |s| ==> r[i] == s[i].port
  {
    seq(|s|, i requires 0 <= i < |s| => s[i].port)
  }

  lemma PortsOfEdits(s: seq<Anchor>, d: Anchor, i: nat)
    ensures PortsOf(s + [d]) == PortsOf(s) + [d.port]
    ensures i < |s| ==> PortsOf(s[..i] + s[i + 1..]) == PortsOf(s)[..i] + PortsOf(s)[i + 1..]
    ensures i < |s| ==> PortsOf(s[i := d]) == PortsOf(s)[i := d.port]
  {
  }

  // One peer list has changed.
  lemma ViewChanged(u: Universe, g: Links, a: Anchor)
    requires a.port in u && u[a.port] == a && g.Keys == u.Keys
    requires forall p :: p in u && p != a.port ==> PortsOf(u[p].peers) == g[p]
    ensures View(u) == g[a.port := PortsOf(a.peers)]
  {
    hide PortsOf;
  }

  ghost predicate Anchored(u: Universe)
    reads u.Values
  {
    && (forall p :: p in u ==> u[p].port == p)
    && (forall p :: p in u ==> forall q :: q in u[p].peers ==> q.port in u && u[q.port] == q)
  }

  ghost function View(u: Universe): Links
    reads u.Values
  {
    map p | p in u :: PortsOf(u[p].peers)
  }

  ghost predicate Member(a: Anchor, u: Universe) {
    a.port in u && u[a.port] == a
  }

  class Anchor {
    const port: Port
    var peers: seq<Anchor>

    constructor (port: Port)
      ensures this.port == port && peers == []
    {
      this.port := port;
      peers := [];
    }

    // The four Equal overloads: same kind of anchor, same owner and, for data
    // anchors, same index.
    predicate Equal(other: Anchor) {
      port == other.port
    }

    // Position of the first peer Equal to p, or |peers|.
    method Find(p: Anchor) returns (i: nat)
      ensures i <= |peers|
      ensures forall k :: 0 <= k < i ==> peers[k].port != p.port
      ensures i < |peers| ==> peers[i].port == p.port
    {
      i := 0;
      while i < |peers|
        invariant i <= |peers|
        invariant forall k :: 0 <= k < i ==> peers[k].port != p.port
      {
        if p.Equal(peers[i]) {
          return;
        }
        i := i + 1;
      }
    }

    method GetPeerInDataAnchors() returns (r: seq<Anchor>)
      ensures PortsOf(r) == InDataOf(PortsOf(peers))
      ensures forall x :: x in r ==> x in peers
    {
      r := [];
      for k := 0 to |peers|
        invariant PortsOf(r) == InDataOf(PortsOf(peers[..k]))
        invariant forall x :: x in r ==> x in peers
      {
        assert Front(PortsOf(peers[..k + 1])) == PortsOf(peers[..k]);
        if peers[k].port.InData? {
          PortsOfEdits(r, peers[k], 0);
          r := r + [peers[k]];
        }
      }
      assert peers[..|peers|] == peers;
    }

    method GetPeerInControlAnchors() returns (r: seq<Anchor>)
      ensures PortsOf(r) == InCtrlOf(PortsOf(peers))
      ensures forall x :: x in r ==> x in peers
    {
      r := [];
      for k := 0 to |peers|
        invariant PortsOf(r) == InCtrlOf(PortsOf(peers[..k]))
        invariant forall x :: x in r ==> x in peers
      {
        assert Front(PortsOf(peers[..k + 1])) == PortsOf(peers[..k]);
        if peers[k].port.InCtrl? {
          PortsOfEdits(r, peers[k], 0);
          r := r + [peers[k]];
        }
      }
      assert peers[..|peers|] == peers;
    }

    method GetPeerOutDataAnchors() returns (r: seq<Anchor>)
      ensures PortsOf(r) == OutDataOf(PortsOf(peers))
      ensures forall x :: x in r ==> x in peers
    {
      r := [];
      for k := 0 to |peers|
        invariant PortsOf(r) == OutDataOf(PortsOf(peers[..k]))
        invariant forall x :: x in r ==> x in peers
      {
        assert Front(PortsOf(peers[..k + 1])) == PortsOf(peers[..k]);
        if peers[k].port.OutData? {
          PortsOfEdits(r, peers[k], 0);
          r := r + [peers[k]];
        }
      }
      assert peers[..|peers|] == peers;
    }

    method GetPeerOutControlAnchors() returns (r: seq<Anchor>)
      ensures PortsOf(r) == OutCtrlOf(PortsOf(peers))
      ensures forall x :: x in r ==> x in peers
    {
      r := [];
      for k := 0 to |peers|
        invariant PortsOf(r) == OutCtrlOf(PortsOf(peers[..k]))
        invariant forall x :: x in r ==> x in peers
      {
        assert Front(PortsOf(peers[..k + 1])) == PortsOf(peers[..k]);
        if peers[k].port.OutCtrl? {
          PortsOfEdits(r, peers[k], 0);
          r := r + [peers[k]];
        }
      }
      assert peers[..|peers|] == peers;
    }

    method IsLinkedWith(p: Anchor, ghost u: Universe) returns (b: bool)
      requires Anchored(u) && Member(this, u)
      ensures b == (p.port in View(u)[port])
    {
      var i := Find(p);
      b := i < |peers|;
      if b {
        assert View(u)[port][i] == p.port;
      }
    }

    // One peer list changes: the three edits of the vector peer_anchors_.
    method PushBack(d: Anchor, ghost u: Universe)
      requires Anchored(u) && Member(this, u) && Member(d, u)
      modifies this`peers
      ensures Anchored(u) && peers == old(peers) + [d]
      ensures View(u) == old(View(u)[port := View(u)[port] + [d.port]])
    {
      PortsOfEdits(peers, d, 0);
      ghost var g := View(u);
      peers := peers + [d];
      ViewChanged(u, g, this);
    }

    method EraseAt(i: nat, ghost u: Universe)
      requires Anchored(u) && Member(this, u) && i < |peers|
      modifies this`peers
      ensures Anchored(u) && peers == old(peers)[..i] + old(peers)[i + 1..]
      ensures View(u) == old(View(u)[port := View(u)[port][..i] + View(u)[port][i + 1..]])
    {
      PortsOfEdits(peers, this, i);
      ghost var g := View(u);
      peers := peers[..i] + peers[i + 1..];
      ViewChanged(u, g, this);
    }

    method SetAt(i: nat, d: Anchor, ghost u: Universe)
      requires Anchored(u) && Member(this, u) && Member(d, u) && i < |peers|
      modifies this`peers
      ensures Anchored(u) && peers == old(peers)[i := d]
      ensures View(u) == old(View(u)[port := View(u)[port][i := d.port]])
    {
      PortsOfEdits(peers, d, i);
      ghost var g := View(u);
      peers := peers[i := d];
      ViewChanged(u, g, this);
    }

    // LinkTo of an out anchor; LinkFrom is the same operation called on dest.
    method LinkTo(dest: Anchor, ghost u: Universe) returns (ok: bool)
      requires Anchored(u) && Member(this, u) && Member(dest, u)
      requires port.IsOut() && dest.port.IsIn()
      modifies this`peers, dest`peers
      ensures Anchored(u)
      ensures ok == CanLink(old(View(u)), port, dest.port)
      ensures View(u) == if ok then Linked(old(View(u)), port, dest.port) else old(View(u))
    {
      if port.OutData? && dest.port.InData? && dest.peers != [] {
        assert View(u)[dest.port] != [];
        return false;
      }
      PushBack(dest, u);
      dest.PushBack(this, u);
      return true;
    }

    // Positions of the edge to peer in both peer lists.
    method FindEdge(peer: Anchor, ghost u: Universe) returns (ok: bool, i: nat, j: nat)
      requires Anchored(u) && Member(this, u) && Member(peer, u)
      ensures ok == CanUnlink(View(u), port, peer.port)
      ensures ok ==> FirstIndex(View(u)[port], peer.port, i) && FirstIndex(View(u)[peer.port], port, j)
    {
      j := 0;
      i := Find(peer);
      if i == |peers| {
        return false, i, j;
      }
      assert View(u)[port][i] == peer.port;
      j := peer.Find(this);
      if j == |peer.peers| {
        return false, i, j;
      }
      assert View(u)[peer.port][j] == port;
      return true, i, j;
    }

    method Unlink(peer: Anchor, ghost u: Universe) returns (ok: bool)
      requires Anchored(u) && Member(this, u) && Member(peer, u) && peer != this
      modifies this`peers, peer`peers
      ensures Anchored(u)
      ensures ok == CanUnlink(old(View(u)), port, peer.port)
      ensures View(u) == if ok then Unlinked(old(View(u)), port, peer.port) else old(View(u))
    {
      var i, j;
      ok, i, j := FindEdge(peer, u);
      if ok {
        FirstAt(View(u)[port], peer.port, peer.port, i);
        FirstAt(View(u)[peer.port], port, port, j);
        EraseAt(i, u);
        peer.EraseAt(j, u);
      }
    }

    // Only first and oldPeer must differ: the second list is written through a
    // position found before the first one grew.
    method ReplacePeer(oldPeer: Anchor, first: Anchor, second: Anchor, ghost u: Universe) returns (ok: bool)
      requires Anchored(u) && Member(this, u) && Member(oldPeer, u) && Member(first, u) && Member(second, u)
      requires first != oldPeer
      modifies this`peers, oldPeer`peers, first`peers, second`peers
      ensures Anchored(u)
      ensures ok == CanUnlink(old(View(u)), port, oldPeer.port)
      ensures View(u) ==
        if ok then Replaced(old(View(u)), port, oldPeer.port, first.port, second.port) else old(View(u))
    {
      var i, j;
      ok, i, j := FindEdge(oldPeer, u);
      if ok {
        FirstAt(View(u)[port], oldPeer.port, first.port, i);
        IndexIs(View(u)[oldPeer.port], port, j);
        hide PortsOf, View, ReplaceFirst, IndexOf;
        SetAt(i, first, u);
        first.PushBack(this, u);
        oldPeer.SetAt(j, second, u);
        second.PushBack(oldPeer, u);
      }
    }

    // One turn of UnlinkAll: the first peer is unlinked.
    method UnlinkFirst(ghost u: Universe)
      requires Anchored(u) && Member(this, u) && peers != []
      requires Covered(View(u), port)
      modifies u.Values`peers
      ensures Anchored(u) && |peers| == |old(peers)| - 1
      ensures Covered(View(u), port)
      ensures Cleared(View(u), port) == Cleared(old(View(u)), port)
    {
      ghost var g := View(u);
      var peer := peers[0];
      assert g[port][0] == peer.port;
      ClearStep(g, port);
      var ok := Unlink(peer, u);
      RemoveFirstElements(g[port], peer.port);
    }

    // The loop retries the first peer even after a failed Unlink, so it ends
    // only because every edge is recorded at both ends.
    method UnlinkAll(ghost u: Universe)
      requires Anchored(u) && Member(this, u)
      requires Covered(View(u), port)
      modifies u.Values`peers
      ensures Anchored(u) && peers == []
      ensures View(u) == Cleared(old(View(u)), port)
    {
      while peers != []
        invariant Anchored(u) && Covered(View(u), port)
        invariant Cleared(View(u), port) == Cleared(old(View(u)), port)
        decreases |peers|
      {
        UnlinkFirst(u);
      }
      assert View(u)[port] == [];
    }
  }

  ghost predicate FirstIndex<T>(s: seq<T>, x: T, i: nat) {
    i < |s| && s[i] == x && forall k :: 0 <= k < i ==> s[k] != x
  }

  // Position of the first x, or the length.
  function IndexOf(s: seq<Port>, x: Port): (i: nat)
    ensures i <= |s| && (x in s ==> i < |s| && s[i] == x)
    ensures forall k :: 0 <= k < i ==> s[k] != x
  {
    if s == [] || s[0] == x then 0 else 1 + IndexOf(s[1..], x)
  }

  lemma IndexIs(s: seq<Port>, x: Port, i: nat)
    requires FirstIndex(s, x, i)
    ensures i == IndexOf(s, x)
  {
    assert x in s;
  }

  // The four writes of ReplacePeer, one after the other.
  function Replaced(g: Links, a: Port, o: Port, f: Port, s: Port): Links
    requires a in g && o in g && f in g && s in g && CanUnlink(g, a, o) && f != o
  {
    var j := IndexOf(g[o], a);
    var g1 := g[a := ReplaceFirst(g[a], o, f)];
    ReplaceFirstLength(g[a], o, f);
    var g2 := g1[f := g1[f] + [a]];
    var g3 := g2[o := g2[o][j := s]];
    g3[s := g3[s] + [o]]
  }

  lemma {:induction false} ReplaceFirstLength(s: seq<Port>, x: Port, y: Port)
    ensures |ReplaceFirst(s, x, y)| == |s|
  {
    if s != [] && s[0] != x {
      ReplaceFirstLength(s[1..], x, y);
    }
  }

  // The ends of the old edge differ from each other and from their new peers;
  // the two new peers may be equal, and the second one may be this anchor.
  predicate Apart4(a: Port, o: Port, f: Port, s: Port) {
    a != o && f != a && f != o && s != o
  }

  // 1 when {x, y} is the edge {a, b}.
  function Edge(x: Port, y: Port, a: Port, b: Port): int {
    if (x == a && y == b) || (x == b && y == a) then 1 else 0
  }

  lemma ReplacedAt(g: Links, a: Port, o: Port, f: Port, s: Port)
    requires a in g && o in g && f in g && s in g && Apart4(a, o, f, s) && CanUnlink(g, a, o)
    ensures var r := Replaced(g, a, o, f, s);
      && r.Keys == g.Keys
      && r[a] == ReplaceFirst(g[a], o, f) + (if s == a then [o] else [])
      && r[o] == ReplaceFirst(g[o], a, s)
      && r[f] == g[f] + [a] + (if s == f then [o] else [])
      && (s != a && s != f ==> r[s] == g[s] + [o])
      && forall x :: x in g && x != a && x != o && x != f && x != s ==> r[x] == g[x]
  {
    FirstAt(g[o], a, s, IndexOf(g[o], a));
    hide IndexOf, ReplaceFirst;
  }

  // What the lists of the four anchors gain and lose.
  lemma ReplacedLists(g: Links, a: Port, o: Port, f: Port, s: Port)
    requires a in g && o in g && f in g && s in g && Apart4(a, o, f, s) && CanUnlink(g, a, o)
    ensures var r := Replaced(g, a, o, f, s);
      && r.Keys == g.Keys
      && multiset(r[a]) == multiset(g[a]) - multiset{o} + multiset{f} + (if s == a then multiset{o} else multiset{})
      && multiset(r[o]) == multiset(g[o]) - multiset{a} + multiset{s}
      && multiset(r[f]) == multiset(g[f]) + multiset{a} + (if s == f then multiset{o} else multiset{})
      && (s != a && s != f ==> multiset(r[s]) == multiset(g[s]) + multiset{o})
      && forall x :: x in g && x != a && x != o && x != f && x != s ==> r[x] == g[x]
  {
    ReplacedAt(g, a, o, f, s);
    ReplaceFirstMultiset(g[a], o, f);
    ReplaceFirstMultiset(g[o], a, s);
    hide Replaced, ReplaceFirst;
  }

  lemma ReplacedCount(g: Links, a: Port, o: Port, f: Port, s: Port, x: Port, y: Port)
    requires a in g && o in g && f in g && s in g && x in g && Apart4(a, o, f, s) && CanUnlink(g, a, o)
    ensures x in Replaced(g, a, o, f, s)
    ensures Mult(Replaced(g, a, o, f, s), x, y) ==
      Mult(g, x, y) - Edge(x, y, a, o) + Edge(x, y, a, f) + Edge(x, y, o, s)
  {
    hide Replaced;
    ReplacedLists(g, a, o, f, s);
    var r := Replaced(g, a, o, f, s);
    hide CanUnlink, Edge;
    EdgeAt(x, y, a, o);
    EdgeAt(x, y, a, f);
    EdgeAt(x, y, o, s);
    CountTraded(multiset(g[a]), o, f, y);
    CountTraded(multiset(g[o]), a, s, y);
    CountGained(multiset(g[a]) - multiset{o} + multiset{f}, o, y);
    CountGained(multiset(g[f]) + multiset{a}, o, y);
    CountGained(multiset(g[f]), a, y);
    CountGained(multiset(g[s]), o, y);
  }

  lemma EdgeAt(x: Port, y: Port, a: Port, b: Port)
    requires a != b
    ensures Edge(x, y, a, b) ==
      if x == a then (if y == b then 1 else 0) else if x == b then (if y == a then 1 else 0) else 0
  {
  }

  lemma CountGained(m: multiset<Port>, z: Port, y: Port)
    ensures (m + multiset{z})[y] == m[y] + (if y == z then 1 else 0) && (m + multiset{})[y] == m[y]
  {
  }

  lemma CountTraded(m: multiset<Port>, x: Port, z: Port, y: Port)
    requires x in m
    ensures (m - multiset{x} + multiset{z})[y] == m[y] - (if y == x then 1 else 0) + (if y == z then 1 else 0)
  {
  }

  // ReplacePeer trades the edge a-o for exactly the two edges a-f and o-s.
  lemma ReplacedCounts(g: Links, a: Port, o: Port, f: Port, s: Port)
    requires a in g && o in g && f in g && s in g && Apart4(a, o, f, s)
    requires CanUnlink(g, a, o)
    ensures Replaced(g, a, o, f, s).Keys == g.Keys
    ensures forall x, y :: x in g ==>
      Mult(Replaced(g, a, o, f, s), x, y) ==
      Mult(g, x, y) - Edge(x, y, a, o) + Edge(x, y, a, f) + Edge(x, y, o, s)
  {
    ReplacedAt(g, a, o, f, s);
    forall x, y | x in g
      ensures Mult(Replaced(g, a, o, f, s), x, y) ==
        Mult(g, x, y) - Edge(x, y, a, o) + Edge(x, y, a, f) + Edge(x, y, o, s)
    {
      ReplacedCount(g, a, o, f, s, x, y);
    }
  }

  lemma ReplacedClosed(g: Links, a: Port, o: Port, f: Port, s: Port)
    requires Closed(g) && a in g && o in g && f in g && s in g && Apart4(a, o, f, s) && CanUnlink(g, a, o)
    requires f.IsOut() == o.IsOut() && s.IsOut() == a.IsOut()
    ensures Closed(Replaced(g, a, o, f, s))
  {
    hide Replaced, Edge, Mult, Closed;
    ClosedAt(g, a, o);
    ReplacedLists(g, a, o, f, s);
    var r := Replaced(g, a, o, f, s);
    forall x, y | x in r && y in r[x] ensures y in r && x.IsOut() == y.IsIn() {
      Listed(r, x, y);
      ReplacedCount(g, a, o, f, s, x, y);
      OldOrNew(g, x, y, a, o, f, s);
      if y in g[x] {
        ClosedAt(g, x, y);
      }
    }
    assert Closed(r) by { ClosedFrom(r); }
  }

  lemma Listed(g: Links, x: Port, y: Port)
    requires x in g && y in g[x]
    ensures Mult(g, x, y) > 0
  {
    assert y in multiset(g[x]);
  }

  lemma ClosedFrom(r: Links)
    requires forall x, y {:trigger y in r[x]} :: x in r && y in r[x] ==> y in r && x.IsOut() == y.IsIn()
    ensures Closed(r)
  {
  }

  lemma OldOrNew(g: Links, x: Port, y: Port, a: Port, o: Port, f: Port, s: Port)
    requires x in g && Mult(g, x, y) - Edge(x, y, a, o) + Edge(x, y, a, f) + Edge(x, y, o, s) > 0
    ensures y in g[x] || (x == a && y == f) || (x == f && y == a) || (x == o && y == s) || (x == s && y == o)
  {
  }

  lemma ClosedAt(g: Links, a: Port, o: Port)
    requires Closed(g) && a in g && o in g[a]
    ensures o in g && a.IsOut() == o.IsIn()
  {
  }

  // In a mirrored state the directions keep the ends of an edge apart.
  lemma ReplacedKeeps(g: Links, a: Port, o: Port, f: Port, s: Port)
    requires WellLinked(g) && a in g && o in g && f in g && s in g && f != o
    requires CanUnlink(g, a, o) && f.IsOut() == o.IsOut() && s.IsOut() == a.IsOut()
    ensures Apart4(a, o, f, s) && WellLinked(Replaced(g, a, o, f, s))
  {
    assert o in g[a];
    hide Replaced, Closed;
    assert a.IsOut() == o.IsIn() by {
      ClosedAt(g, a, o);
    }
    ReplacedSymmetric(g, a, o, f, s);
    ReplacedClosed(g, a, o, f, s);
  }

  lemma ReplacedSymmetric(g: Links, a: Port, o: Port, f: Port, s: Port)
    requires Symmetric(g) && a in g && o in g && f in g && s in g && Apart4(a, o, f, s) && CanUnlink(g, a, o)
    ensures Symmetric(Replaced(g, a, o, f, s))
  {
    hide Replaced, Mult;
    ReplacedCounts(g, a, o, f, s);
    var r := Replaced(g, a, o, f, s);
    forall x, y | x in r && y in r ensures Mult(r, x, y) == Mult(r, y, x) {
      assert Mult(g, x, y) == Mult(g, y, x);
    }
  }

  // ------------------------------------------------------------ UnlinkAll

  // Every entry of a's list is matched by an entry of the peer's list.
  ghost predicate Covered(g: Links, a: Port) {
    && a in g && a !in g[a]
    && forall b :: b in g[a] ==> b in g && Mult(g, a, b) <= Mult(g, b, a)
  }

  lemma ClearStep(g: Links, a: Port)
    requires Covered(g, a) && g[a] != []
    ensures CanUnlink(g, a, g[a][0])
    ensures Covered(Unlinked(g, a, g[a][0]), a)
    ensures |Unlinked(g, a, g[a][0])[a]| == |g[a]| - 1
  {
    var b := g[a][0];
    assert Mult(g, a, b) <= Mult(g, b, a);
    UnlinkedCounts(g, a, b);
    RemoveFirstElements(g[a], b);
  }

  ghost function Cleared(g: Links, a: Port): Links
    requires Covered(g, a)
    decreases |g[a]|
  {
    if g[a] == [] then g
    else
      ClearStep(g, a);
      Cleared(Unlinked(g, a, g[a][0]), a)
  }

  // What UnlinkAll leaves behind: a has no peers, each peer lost exactly its
  // entries for a, and no other multiplicity changed.
  lemma {:induction false} ClearedCounts(g: Links, a: Port)
    requires Covered(g, a)
    ensures Cleared(g, a).Keys == g.Keys && Cleared(g, a)[a] == []
    ensures forall b :: b in g && b != a ==> Mult(Cleared(g, a), b, a) == Mult(g, b, a) - Mult(g, a, b)
    ensures forall b, c :: b in g && b != a && c != a ==> Mult(Cleared(g, a), b, c) == Mult(g, b, c)
    decreases |g[a]|
  {
    if g[a] != [] {
      ClearStep(g, a);
      UnlinkedCounts(g, a, g[a][0]);
      ClearedCounts(Unlinked(g, a, g[a][0]), a);
    }
  }

  lemma {:induction false} ClearedKeeps(g: Links, a: Port)
    requires WellLinked(g) && a in g
    ensures Covered(g, a) && WellLinked(Cleared(g, a)) && Cleared(g, a).Keys == g.Keys
    ensures forall b :: b in g ==> a !in Cleared(g, a)[b]
    decreases |g[a]|
  {
    if g[a] != [] {
      ClearStep(g, a);
      UnlinkedKeeps(g, a, g[a][0]);
      ClearedKeeps(Unlinked(g, a, g[a][0]), a);
    } else {
      forall b | b in g ensures a !in g[b] {
        assert Mult(g, b, a) == Mult(g, a, b);
      }
    }
  }

  // One turn of the loop, failed Unlink included, and n turns.
  function Turn(g: Links, a: Port): Links
    requires a in g && forall b :: b in g[a] ==> b in g
  {
    if g[a] != [] && CanUnlink(g, a, g[a][0]) then Unlinked(g, a, g[a][0]) else g
  }

  lemma TurnKeeps(g: Links, a: Port)
    requires a in g && a !in g[a] && forall b :: b in g[a] ==> b in g
    ensures Turn(g, a).Keys == g.Keys && a !in Turn(g, a)[a]
    ensures forall b :: b in Turn(g, a)[a] ==> b in g[a]
    ensures forall b :: b in g && b != a ==>
      Mult(Turn(g, a), a, b) - Mult(Turn(g, a), b, a) == Mult(g, a, b) - Mult(g, b, a)
  {
    if g[a] != [] && CanUnlink(g, a, g[a][0]) {
      UnlinkedCounts(g, a, g[a][0]);
      RemoveFirstElements(g[a], g[a][0]);
    }
  }

  ghost function Turns(g: Links, a: Port, n: nat): (r: Links)
    requires a in g && a !in g[a] && forall b :: b in g[a] ==> b in g
    ensures r.Keys == g.Keys
  {
    if n == 0 then g
    else
      TurnKeeps(g, a);
      Turns(Turn(g, a), a, n - 1)
  }

  lemma {:induction false} TurnsEmpty(g: Links, a: Port)
    requires Covered(g, a)
    ensures Turns(g, a, |g[a]|)[a] == []
    decreases |g[a]|
  {
    if g[a] != [] {
      ClearStep(g, a);
      TurnsEmpty(Turn(g, a), a);
    }
  }

  lemma {:induction false} TurnsStuck(g: Links, a: Port, b: Port, n: nat)
    requires a in g && a !in g[a] && forall b :: b in g[a] ==> b in g
    requires b in g && b != a && Mult(g, a, b) > Mult(g, b, a)
    ensures Turns(g, a, n)[a] != []
  {
    if n > 0 {
      TurnKeeps(g, a);
      TurnsStuck(Turn(g, a), a, b, n - 1);
    }
  }

  // UnlinkAll terminates exactly when each peer lists the anchor at least as
  // often as it is listed; one missing back entry makes the loop run forever.
  lemma UnlinkAllEndsIff(g: Links, a: Port)
    requires a in g && a !in g[a] && forall b :: b in g[a] ==> b in g
    ensures (exists n: nat :: Turns(g, a, n)[a] == []) <==> Covered(g, a)
  {
    if Covered(g, a) {
      TurnsEmpty(g, a);
    } else {
      var b :| b in g[a] && Mult(g, a, b) > Mult(g, b, a);
      forall n: nat ensures Turns(g, a, n)[a] != [] {
        TurnsStuck(g, a, b, n);
      }
    }
  }

  // ------------------------------------------------------ runs of operations

  datatype Op =
    | Link(src: Port, dst: Port)
    | Unlink(src: Port, dst: Port)
    | UnlinkAll(port: Port)
    | ReplacePeer(src: Port, old_: Port, first: Port, second: Port)

  // The operands are anchors of the state, used in the directions their
  // types allow.
  ghost predicate Typed(g: Links, op: Op) {
    match op
    case Link(a, b) => a in g && b in g && a.IsOut() && b.IsIn()
    case Unlink(a, b) => a in g && b in g && a != b
    case UnlinkAll(a) => a in g
    case ReplacePeer(a, o, f, s) =>
      && a in g && o in g && f in g && s in g && f != o
      && f.IsOut() == o.IsOut() && s.IsOut() == a.IsOut()
  }

  ghost function Apply(g: Links, op: Op): (r: Links)
    requires WellLinked(g) && Typed(g, op)
    ensures r.Keys == g.Keys && WellLinked(r)
  {
    match op
    case Link(a, b) => LinkedKeeps(g, a, b); if CanLink(g, a, b) then Linked(g, a, b) else g
    case Unlink(a, b) =>
      if CanUnlink(g, a, b) then
        UnlinkedKeeps(g, a, b); Unlinked(g, a, b)
      else g
    case UnlinkAll(a) => ClearedKeeps(g, a); ClearedCounts(g, a); Cleared(g, a)
    case ReplacePeer(a, o, f, s) =>
      if CanUnlink(g, a, o) then
        ReplacedKeeps(g, a, o, f, s); Replaced(g, a, o, f, s)
      else g
  }

  ghost predicate TypedRun(g: Links, ops: seq<Op>) {
    forall i :: 0 <= i < |ops| ==> Typed(g, ops[i])
  }

  ghost function Run(g: Links, ops: seq<Op>): Links
    requires WellLinked(g) && TypedRun(g, ops)
  {
    if ops == [] then g else Run(Apply(g, ops[0]), ops[1..])
  }

  // Every run, from any state with mirrored peer lists, mirrors them again.
  lemma {:induction false} RunKeepsSymmetry(g: Links, ops: seq<Op>)
    requires WellLinked(g) && TypedRun(g, ops)
    ensures Run(g, ops).Keys == g.Keys && WellLinked(Run(g, ops))
  {
    if ops != [] {
      RunKeepsSymmetry(Apply(g, ops[0]), ops[1..]);
    }
  }
}
