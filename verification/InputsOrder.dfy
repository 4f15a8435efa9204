// The user's input order in SortNodes: one exchange pass over the start stack,
// which keeps comparing with the position of the node it started from.
module InputsOrder {
  import opened Links

  // Position of the first entry of that name, or the length.
  function Index(order: seq<string>, name: string): (i: nat)
    ensures i <= |order| && (i < |order| ==> order[i] == name)
    ensures forall k :: 0 <= k < i ==> order[k] != name
  {
    if order == [] || order[0] == name then 0 else 1 + Index(order[1..], name)
  }

  // The position of a listed node; -1 for one that is not listed.
  function Key(order: seq<string>, n: Node): int {
    var i := Index(order, n.name);
    if i < |order| then i else -1
  }

  function Swap(s: seq<Node>, i: nat, j: nat): seq<Node>
    requires i < |s| && j < |s|
  {
    s[i := s[j]][j := s[i]]
  }

  // The inner loop: x is the key that node i had when its turn came.
  function Inner(order: seq<string>, s: seq<Node>, i: nat, x: int, j: nat): (r: seq<Node>)
    requires i < j <= |s|
    ensures |r| == |s|
    decreases |s| - j
  {
    if j == |s| then s else Inner(order, if Key(order, s[j]) > x then Swap(s, i, j) else s, i, x, j + 1)
  }

  function Outer(order: seq<string>, s: seq<Node>, i: nat): (r: seq<Node>)
    requires i <= |s|
    ensures |r| == |s|
    decreases |s| - i
  {
    if i == |s| then s
    else if Key(order, s[i]) >= 0 then Outer(order, Inner(order, s, i, Key(order, s[i]), i + 1), i + 1)
    else Outer(order, s, i + 1)
  }

  function InputsOrdered(order: seq<string>, s: seq<Node>): seq<Node> {
    Outer(order, s, 0)
  }

  // The stack is emitted from its end, so descending positions are meant.
  ghost predicate Descending(order: seq<string>, s: seq<Node>, i: nat) {
    forall p, q :: i <= p < q < |s| && Key(order, s[p]) >= 0 && Key(order, s[q]) >= 0 ==>
      Key(order, s[p]) >= Key(order, s[q])
  }

  // A listed node with, behind it, a larger one and then one in between.
  ghost predicate Zigzag(order: seq<string>, s: seq<Node>, p: nat, q: nat, t: nat) {
    p < q < t < |s| && 0 <= Key(order, s[p]) < Key(order, s[t]) < Key(order, s[q])
  }

  ghost predicate Crossed(order: seq<string>, s: seq<Node>, i: nat) {
    exists p: nat, q: nat, t: nat :: i <= p && Zigzag(order, s, p, q, t)
  }

  // ------------------------------------------------------- the inner loop

  // The last node between i and t with a larger key than x, or i.
  function Prev(order: seq<string>, s: seq<Node>, i: nat, x: int, t: nat): (p: nat)
    requires i < t <= |s|
    ensures i <= p < t
    ensures p > i ==> Key(order, s[p]) > x
    ensures forall k :: p < k < t ==> Key(order, s[k]) <= x
  {
    if t == i + 1 then i else if Key(order, s[t - 1]) > x then t - 1 else Prev(order, s, i, x, t - 1)
  }

  // Node i after the pass is the last larger one; each larger one moves on to
  // the place of the next.
  ghost predicate Passed(order: seq<string>, s: seq<Node>, i: nat, x: int, j: nat, r: seq<Node>)
    requires i < j <= |s|
  {
    && |r| == |s| && r[..i] == s[..i] && r[i] == s[Prev(order, s, i, x, j)]
    && (forall t :: i < t < j ==> r[t] == if Key(order, s[t]) > x then s[Prev(order, s, i, x, t)] else s[t])
    && (forall t :: j <= t < |s| ==> r[t] == s[t])
  }

  lemma PassedStep(order: seq<string>, s: seq<Node>, i: nat, x: int, j: nat, r: seq<Node>)
    requires i < j < |s| && Passed(order, s, i, x, j, r)
    ensures Passed(order, s, i, x, j + 1, if Key(order, r[j]) > x then Swap(r, i, j) else r)
  {
    hide Key;
    assert r[j] == s[j];
    var n := if Key(order, r[j]) > x then Swap(r, i, j) else r;
    assert n[..i] == r[..i];
  }

  lemma {:induction false} InnerPasses(order: seq<string>, s: seq<Node>, i: nat, x: int, j: nat, r: seq<Node>)
    requires i < j <= |s| && Passed(order, s, i, x, j, r)
    ensures Passed(order, s, i, x, |s|, Inner(order, r, i, x, j))
    decreases |s| - j
  {
    hide Passed, Key;
    PassedLength(order, s, i, x, j, r);
    if j < |s| {
      PassedStep(order, s, i, x, j, r);
      InnerPasses(order, s, i, x, j + 1, if Key(order, r[j]) > x then Swap(r, i, j) else r);
    }
  }

  lemma PassedLength(order: seq<string>, s: seq<Node>, i: nat, x: int, j: nat, r: seq<Node>)
    requires i < j <= |s| && Passed(order, s, i, x, j, r)
    ensures |r| == |s|
  {
  }

  lemma InnerIs(order: seq<string>, s: seq<Node>, i: nat, x: int)
    requires i < |s|
    ensures Passed(order, s, i, x, |s|, Inner(order, s, i, x, i + 1))
  {
    assert Passed(order, s, i, x, i + 1, s);
    InnerPasses(order, s, i, x, i + 1, s);
  }

  lemma {:induction false} InnerKeeps(order: seq<string>, s: seq<Node>, i: nat, x: int, j: nat)
    requires i < j <= |s|
    ensures var r := Inner(order, s, i, x, j); multiset(r) == multiset(s) && r[..i] == s[..i]
    decreases |s| - j
  {
    hide Key, Swap;
    if j < |s| {
      var n := if Key(order, s[j]) > x then Swap(s, i, j) else s;
      SwapKeeps(s, i, j);
      InnerKeeps(order, n, i, x, j + 1);
    }
  }

  lemma InnerPermutes(order: seq<string>, s: seq<Node>, i: nat, x: int, j: nat)
    requires i < j <= |s|
    ensures var r := Inner(order, s, i, x, j); multiset(r) == multiset(s) && r[..i] == s[..i]
    ensures multiset(Inner(order, s, i, x, j)[i..]) == multiset(s[i..])
  {
    hide Key, Inner;
    InnerKeeps(order, s, i, x, j);
    SuffixPermutes(s, Inner(order, s, i, x, j), i);
  }

  lemma SwapKeeps(s: seq<Node>, i: nat, j: nat)
    requires i < j < |s|
    ensures |Swap(s, i, j)| == |s| && Swap(s, i, j)[..i] == s[..i]
    ensures multiset(Swap(s, i, j)) == multiset(s)
  {
  }

  lemma SuffixPermutes(s: seq<Node>, r: seq<Node>, i: nat)
    requires multiset(r) == multiset(s) && |r| == |s| && i <= |s| && r[..i] == s[..i]
    ensures multiset(r[i..]) == multiset(s[i..])
  {
    assert r == r[..i] + r[i..] && s == s[..i] + s[i..];
    assert multiset(r[i..]) == multiset(r) - multiset(r[..i]);
    assert multiset(s[i..]) == multiset(s) - multiset(s[..i]);
  }

  lemma {:induction false} OuterPermutes(order: seq<string>, s: seq<Node>, i: nat)
    requires i <= |s|
    ensures var r := Outer(order, s, i); multiset(r) == multiset(s) && r[..i] == s[..i]
    ensures multiset(Outer(order, s, i)[i..]) == multiset(s[i..])
    decreases |s| - i
  {
    hide Key, Inner;
    var r := Outer(order, s, i);
    if i < |s| {
      var n := if Key(order, s[i]) >= 0 then Inner(order, s, i, Key(order, s[i]), i + 1) else s;
      if Key(order, s[i]) >= 0 {
        InnerPermutes(order, s, i, Key(order, s[i]), i + 1);
      }
      OuterPermutes(order, n, i + 1);
      assert r[..i] == r[..i + 1][..i] == n[..i + 1][..i] == n[..i];
    }
    SuffixPermutes(s, r, i);
  }

  // -------------------------------------------------------- one pass is kind

  // Without a crossing the last larger node is the largest.
  lemma LastIsTop(order: seq<string>, s: seq<Node>, i: nat, t: nat)
    requires i <= t < |s| && Key(order, s[i]) >= 0 && !Crossed(order, s, i)
    ensures Key(order, s[t]) <= Key(order, s[Prev(order, s, i, Key(order, s[i]), |s|)])
  {
    hide Key, Prev, Crossed;
    var last := Prev(order, s, i, Key(order, s[i]), |s|);
    if i < t < last && Key(order, s[t]) > Key(order, s[last]) {
      LargerCrosses(order, s, i, t, last);
    }
  }

  // So the pass brings it to place i, and leaves no crossing behind it.
  lemma PassTop(order: seq<string>, s: seq<Node>, i: nat, r: seq<Node>)
    requires i < |s| && Key(order, s[i]) >= 0 && Passed(order, s, i, Key(order, s[i]), |s|, r) && !Crossed(order, s, i)
    ensures forall t :: i < t < |r| ==> Key(order, r[t]) <= Key(order, r[i])
  {
    hide Key, Prev, Crossed;
    forall t | i < t < |r| ensures Key(order, r[t]) <= Key(order, r[i]) {
      LastIsTop(order, s, i, if Key(order, s[t]) > Key(order, s[i]) then Prev(order, s, i, Key(order, s[i]), t) else t);
    }
  }

  lemma LargerCrosses(order: seq<string>, s: seq<Node>, i: nat, q: nat, t: nat)
    requires i < q < t < |s| && 0 <= Key(order, s[i]) < Key(order, s[t]) < Key(order, s[q])
    ensures Crossed(order, s, i)
  {
    hide Key;
    assert Zigzag(order, s, i, q, t);
  }

  lemma PassStays(order: seq<string>, s: seq<Node>, i: nat, r: seq<Node>)
    requires i < |s| && Key(order, s[i]) >= 0 && Passed(order, s, i, Key(order, s[i]), |s|, r) && !Crossed(order, s, i)
    ensures !Crossed(order, r, i + 1)
  {
    hide Key, Prev;
    if p: nat, q: nat, t: nat :| i + 1 <= p && Zigzag(order, r, p, q, t) {
      CrossedBefore(order, s, i, r, p, q, t);
    }
  }

  lemma CrossedBefore(order: seq<string>, s: seq<Node>, i: nat, r: seq<Node>, p: nat, q: nat, t: nat)
    requires i < |s| && Key(order, s[i]) >= 0 && Passed(order, s, i, Key(order, s[i]), |s|, r)
    requires i < p && Zigzag(order, r, p, q, t)
    ensures Crossed(order, s, i)
  {
    hide Key, Prev;
    var x := Key(order, s[i]);
    if Key(order, s[t]) > x {
      var u, w := Prev(order, s, i, x, q), Prev(order, s, i, x, t);
      assert Zigzag(order, s, i, u, w);
    } else {
      assert r[t] == s[t] && r[p] == s[p];
      assert Zigzag(order, s, p, q, t);
    }
  }

  lemma {:induction false} UncrossedSorts(order: seq<string>, s: seq<Node>, i: nat)
    requires i <= |s| && !Crossed(order, s, i)
    ensures Descending(order, Outer(order, s, i), i)
    decreases |s| - i
  {
    hide Key, Inner, Passed, Crossed;
    if i < |s| {
      var n := s;
      if Key(order, s[i]) >= 0 {
        n := Inner(order, s, i, Key(order, s[i]), i + 1);
        InnerIs(order, s, i, Key(order, s[i]));
        PassTop(order, s, i, n);
        PassStays(order, s, i, n);
      } else {
        CrossedLater(order, s, i);
      }
      UncrossedSorts(order, n, i + 1);
      OuterPermutes(order, n, i + 1);
      var r := Outer(order, n, i + 1);
      assert r[i] == r[..i + 1][i] == n[..i + 1][i];
      TopAbove(order, n, r, i);
    }
  }

  lemma CrossedLater(order: seq<string>, s: seq<Node>, i: nat)
    requires i < |s|
    ensures Crossed(order, s, i + 1) ==> Crossed(order, s, i)
    ensures Crossed(order, s, i) && Key(order, s[i]) < 0 ==> Crossed(order, s, i + 1)
  {
    hide Key;
    if p: nat, q: nat, t: nat :| i <= p && Zigzag(order, s, p, q, t) {
      assert Key(order, s[i]) < 0 ==> p != i;
    }
  }

  lemma TopAbove(order: seq<string>, n: seq<Node>, r: seq<Node>, i: nat)
    requires i < |n| == |r| && r[i] == n[i] && multiset(r[i + 1..]) == multiset(n[i + 1..])
    requires Descending(order, r, i + 1)
    requires Key(order, n[i]) >= 0 ==> forall t :: i < t < |n| ==> Key(order, n[t]) <= Key(order, n[i])
    ensures Descending(order, r, i)
  {
    hide Key;
    forall q | i < q < |r| && Key(order, r[i]) >= 0 ensures Key(order, r[q]) <= Key(order, r[i]) {
      var t := FoundIn(r, n, i + 1, q);
    }
  }

  lemma FoundIn(r: seq<Node>, n: seq<Node>, i: nat, q: nat) returns (t: nat)
    requires |r| == |n| && i <= q < |r| && multiset(r[i..]) == multiset(n[i..])
    ensures i <= t < |n| && n[t] == r[q]
  {
    assert r[q] == r[i..][q - i] && r[q] in multiset(r[i..]);
    var k :| 0 <= k < |n[i..]| && n[i..][k] == r[q];
    t := i + k;
  }

  // ------------------------------------------------------ a crossing is kept

  // Different listed nodes have different positions.
  ghost predicate KeysApart(order: seq<string>, s: seq<Node>) {
    forall p, q :: 0 <= p < q < |s| && Key(order, s[p]) >= 0 ==> Key(order, s[p]) != Key(order, s[q])
  }

  lemma NamesApart(order: seq<string>, s: seq<Node>)
    requires Distinct(s) && UniqueNames(s)
    ensures KeysApart(order, s)
  {
    forall p, q | 0 <= p < q < |s| && Key(order, s[p]) >= 0 ensures Key(order, s[p]) != Key(order, s[q]) {
      assert s[p] in s && s[q] in s;
    }
  }

  // The next larger node behind u, if some node behind u is larger than x.
  lemma Next(order: seq<string>, s: seq<Node>, i: nat, x: int, u: nat, last: nat) returns (v: nat)
    requires i < u < last < |s| && Key(order, s[u]) > x && Key(order, s[last]) > x
    ensures u < v <= last && Key(order, s[v]) > x && Prev(order, s, i, x, v) == u
  {
    hide Key;
    v := u + 1;
    while Key(order, s[v]) <= x
      invariant u < v <= last && forall k :: u < k < v ==> Key(order, s[k]) <= x
      decreases last - v
    {
      v := v + 1;
    }
  }

  lemma FirstLarger(order: seq<string>, s: seq<Node>, i: nat, x: int, u: nat) returns (v: nat)
    requires i < u < |s| && Key(order, s[u]) > x
    ensures i < v <= u && Key(order, s[v]) > x && Prev(order, s, i, x, v) == i
  {
    hide Key;
    v := i + 1;
    while Key(order, s[v]) <= x
      invariant i < v <= u && forall k :: i < k < v ==> Key(order, s[k]) <= x
      decreases u - v
    {
      v := v + 1;
    }
  }

  lemma PassedAt(order: seq<string>, s: seq<Node>, i: nat, x: int, r: seq<Node>, t: nat)
    requires i < t < |s| && Passed(order, s, i, x, |s|, r) && Key(order, s[t]) > x
    ensures |r| == |s| && r[t] == s[Prev(order, s, i, x, t)]
  {
    hide Key, Prev;
  }

  // Two larger nodes in falling order stay a crossing with node i.
  lemma FallingStays(order: seq<string>, s: seq<Node>, i: nat, r: seq<Node>, u: nat, w: nat)
    requires i < |s| && Key(order, s[i]) >= 0 && Passed(order, s, i, Key(order, s[i]), |s|, r)
    requires i < u < w < |s| && Key(order, s[i]) < Key(order, s[w]) < Key(order, s[u])
    requires forall t :: i < t < |r| ==> Key(order, r[t]) <= Key(order, r[i])
    ensures Crossed(order, r, i + 1)
  {
    hide Key, Prev, Passed;
    var x := Key(order, s[i]);
    PassedLength(order, s, i, x, |s|, r);
    var last := Prev(order, s, i, x, |s|);
    assert w <= last;
    if w == last {
      FallingShows(order, s, i, r, u, w);
    } else {
      var a := FirstLarger(order, s, i, x, u);
      var b := Next(order, s, i, x, u, last);
      var c := Next(order, s, i, x, w, last);
      NextLater(order, s, i, x, u, w, b);
      PassedAt(order, s, i, x, r, a);
      PassedAt(order, s, i, x, r, b);
      PassedAt(order, s, i, x, r, c);
      assert Zigzag(order, r, a, b, c);
    }
  }

  // Were the smaller one the last, the pass would not bring up the largest.
  lemma FallingShows(order: seq<string>, s: seq<Node>, i: nat, r: seq<Node>, u: nat, w: nat)
    requires i < |s| && Key(order, s[i]) >= 0 && Passed(order, s, i, Key(order, s[i]), |s|, r)
    requires i < u < w < |s| && Key(order, s[i]) < Key(order, s[w]) < Key(order, s[u])
    requires w == Prev(order, s, i, Key(order, s[i]), |s|)
    ensures exists t :: i < t < |r| && Key(order, r[t]) > Key(order, r[i])
  {
    hide Key, Prev;
    var v := Next(order, s, i, Key(order, s[i]), u, w);
    assert r[v] == s[u] && Key(order, r[v]) > Key(order, r[i]);
  }

  lemma NextLater(order: seq<string>, s: seq<Node>, i: nat, x: int, u: nat, w: nat, b: nat)
    requires i < u < w < |s| && u < b < |s| && Key(order, s[w]) > x && Prev(order, s, i, x, b) == u
    ensures b <= w
  {
    hide Key;
  }

  lemma CrossingStays(order: seq<string>, s: seq<Node>, i: nat, r: seq<Node>)
    requires i < |s| && Key(order, s[i]) >= 0 && Passed(order, s, i, Key(order, s[i]), |s|, r)
    requires Crossed(order, s, i) && KeysApart(order, s)
    requires forall t :: i < t < |r| ==> Key(order, r[t]) <= Key(order, r[i])
    ensures Crossed(order, r, i + 1)
  {
    hide Key, Prev;
    var x := Key(order, s[i]);
    var p: nat, q: nat, t: nat :| i <= p && Zigzag(order, s, p, q, t);
    if Key(order, s[t]) > x {
      hide Passed;
      FallingStays(order, s, i, r, q, t);
    } else {
      assert p > i && r[p] == s[p] && r[t] == s[t] && Key(order, s[t]) < x;
      assert Key(order, r[q]) > Key(order, s[t]);
      assert Zigzag(order, r, p, q, t);
    }
  }

  lemma {:induction false} CrossedFails(order: seq<string>, s: seq<Node>, i: nat)
    requires i <= |s| && Crossed(order, s, i) && KeysApart(order, s)
    ensures !Descending(order, Outer(order, s, i), i)
    decreases |s| - i
  {
    hide Key, Inner, Passed, Crossed, KeysApart;
    if i == |s| {
      NoneBehind(order, s);
    } else if Key(order, s[i]) < 0 {
      CrossedLater(order, s, i);
      CrossedFails(order, s, i + 1);
    } else {
      var n := Inner(order, s, i, Key(order, s[i]), i + 1);
      InnerIs(order, s, i, Key(order, s[i]));
      InnerPermutes(order, s, i, Key(order, s[i]), i + 1);
      KeysPermuted(order, s, n);
      OuterPermutes(order, n, i + 1);
      var r := Outer(order, n, i + 1);
      assert r[i] == r[..i + 1][i] == n[..i + 1][i];
      if t :| i < t < |n| && Key(order, n[t]) > Key(order, n[i]) {
        TopKey(order, s, i, n);
        var q := FoundIn(n, r, i + 1, t);
      } else {
        CrossingStays(order, s, i, n);
        CrossedFails(order, n, i + 1);
      }
    }
  }

  lemma TopKey(order: seq<string>, s: seq<Node>, i: nat, r: seq<Node>)
    requires i < |s| && Key(order, s[i]) >= 0 && Passed(order, s, i, Key(order, s[i]), |s|, r)
    ensures Key(order, r[i]) >= 0
  {
    hide Key, Prev;
  }

  lemma NoneBehind(order: seq<string>, s: seq<Node>)
    ensures !Crossed(order, s, |s|)
  {
    hide Key;
  }

  lemma KeysPermuted(order: seq<string>, s: seq<Node>, r: seq<Node>)
    requires KeysApart(order, s) && multiset(r) == multiset(s)
    ensures KeysApart(order, r)
  {
    hide Key;
    forall p, q | 0 <= p < q < |r| && Key(order, r[p]) >= 0 ensures Key(order, r[p]) != Key(order, r[q]) {
      assert r[p] in multiset(s) && r[q] in multiset(s);
      var x :| 0 <= x < |s| && s[x] == r[p];
      var y :| 0 <= y < |s| && s[y] == r[q];
      if x == y {
        var z := SecondPlace(r, s, p, q, x);
      }
    }
  }

  lemma TwiceIn(r: seq<Node>, p: nat, q: nat)
    requires p < q < |r| && r[p] == r[q]
    ensures multiset(r)[r[p]] >= 2
  {
    assert r == r[..q] + r[q..];
    assert r[..q][p] == r[p] && r[p] in r[..q];
    assert r[q..][0] == r[q] && r[q] in r[q..];
    assert multiset(r) == multiset(r[..q]) + multiset(r[q..]);
  }

  // What stands twice in r stands twice in s.
  lemma SecondPlace(r: seq<Node>, s: seq<Node>, p: nat, q: nat, x: nat) returns (z: nat)
    requires p < q < |r| && r[p] == r[q] && x < |s| && s[x] == r[p] && multiset(r) == multiset(s)
    ensures z < |s| && z != x && s[z] == s[x]
  {
    TwiceIn(r, p, q);
    assert multiset(s)[s[x]] >= 2;
    assert s == s[..x] + [s[x]] + s[x + 1..];
    if s[x] in s[..x] {
      z :| 0 <= z < x && s[..x][z] == s[x];
    } else {
      assert s[x] in multiset(s[x + 1..]);
      var k :| 0 <= k < |s[x + 1..]| && s[x + 1..][k] == s[x];
      z := x + 1 + k;
    }
  }

  // The pass puts the inputs in the user's order if and only if no listed node
  // has, behind it in the stack, a later one and then one in between.
  lemma InputsOrderIff(order: seq<string>, s: seq<Node>)
    requires KeysApart(order, s)
    ensures Descending(order, InputsOrdered(order, s), 0) <==> !Crossed(order, s, 0)
  {
    hide Crossed, Descending, KeysApart, Outer;
    if Crossed(order, s, 0) {
      CrossedFails(order, s, 0);
    } else {
      UncrossedSorts(order, s, 0);
    }
  }

  // Three inputs that become 1, 2, 0 where 2, 1, 0 is meant.
  lemma ThreeInputs(a: Node, b: Node, c: Node)
    requires a.name == "a" && b.name == "b" && c.name == "c"
    ensures InputsOrdered(["a", "b", "c"], [a, c, b]) == [b, c, a]
    ensures !Descending(["a", "b", "c"], [b, c, a], 0)
  {
    var o := ["a", "b", "c"];
    assert o[1..] == ["b", "c"] && o[1..][1..] == ["c"];
    assert Key(o, a) == 0 && Key(o, b) == 1 && Key(o, c) == 2;
    hide Key;
    InnerOnce(o, [a, c, b], 0, 0, 1);
    InnerOnce(o, [c, a, b], 0, 0, 2);
    InnerOnce(o, [b, a, c], 1, 0, 2);
    assert Swap([a, c, b], 0, 1) == [c, a, b] && Swap([c, a, b], 0, 2) == [b, a, c] &&
      Swap([b, a, c], 1, 2) == [b, c, a];
    hide Inner;
    InnerDone(o, [b, a, c], 0, 0);
    InnerDone(o, [b, c, a], 1, 0);
    InnerDone(o, [b, c, a], 2, 0);
    OuterOnce(o, [a, c, b], 0);
    OuterOnce(o, [b, a, c], 1);
    OuterOnce(o, [b, c, a], 2);
    assert Outer(o, [b, c, a], 3) == [b, c, a];
    assert [b, c, a][0] == b && [b, c, a][1] == c;
  }

  lemma InnerOnce(order: seq<string>, s: seq<Node>, i: nat, x: int, j: nat)
    requires i < j < |s|
    ensures Inner(order, s, i, x, j) == Inner(order, if Key(order, s[j]) > x then Swap(s, i, j) else s, i, x, j + 1)
  {
  }

  lemma InnerDone(order: seq<string>, s: seq<Node>, i: nat, x: int)
    requires i < |s|
    ensures Inner(order, s, i, x, |s|) == s
  {
  }

  lemma OuterOnce(order: seq<string>, s: seq<Node>, i: nat)
    requires i < |s| && Key(order, s[i]) >= 0
    ensures Outer(order, s, i) == Outer(order, Inner(order, s, i, Key(order, s[i]), i + 1), i + 1)
  {
  }
}
