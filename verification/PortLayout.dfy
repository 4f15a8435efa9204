// Where dynamic ports end up: the layout that the registered order promises,
// and the layout that inserting at precomputed positions produces.
module PortLayout {
  import opened Links
  import opened NodeIndex
  import opened OpDescs

  // Tensor counts of the dynamic ports.
  type Counts = map<string, nat>

  // A dynamic port with the position computed for it.
  datatype Slot = Slot(name: string, at: nat, num: nat)

  // The registered ports that have a descriptor from the start.
  function Statics(reg: seq<string>, dyn: Counts): seq<string> {
    if reg == [] then []
    else Statics(Front(reg), dyn) + if Last(reg) in dyn then [] else [Last(reg)]
  }

  // The promised layout: each dynamic port p stands as p0 .. p(n-1) where it
  // was registered.
  function Expected(reg: seq<string>, dyn: Counts): seq<string> {
    if reg == [] then []
    else Expected(Front(reg), dyn) + if Last(reg) in dyn then Numbered(Last(reg), dyn[Last(reg)]) else [Last(reg)]
  }

  // The index arithmetic: a dynamic port counts as one port plus its further
  // tensors, so one without tensors still counts.
  function PortWidth(dyn: Counts, name: string): nat {
    1 + if name in dyn && dyn[name] > 0 then dyn[name] - 1 else 0
  }

  function InsertAt(reg: seq<string>, dyn: Counts): nat {
    if reg == [] then 0 else InsertAt(Front(reg), dyn) + PortWidth(dyn, Last(reg))
  }

  // The dynamic ports in registered order.
  function Slots(reg: seq<string>, dyn: Counts): seq<Slot> {
    if reg == [] then []
    else Slots(Front(reg), dyn)
         + if Last(reg) in dyn then [Slot(Last(reg), InsertAt(Front(reg), dyn), dyn[Last(reg)])] else []
  }

  // The insertion loop; ports without tensors are skipped, and a failed
  // insertion is ignored.
  function InsertAll(names: seq<string>, ps: seq<Slot>): seq<string> {
    if ps == [] then names
    else
      var before := InsertAll(names, Front(ps));
      if Last(ps).num == 0 then before else InsertMiddle(before, Last(ps).name, Last(ps).num, Last(ps).at).names
  }

  // No dynamic port without tensors is registered ahead of one with tensors.
  predicate EmptyPortsLast(reg: seq<string>, dyn: Counts) {
    forall i, k :: 0 <= i < k < |reg| && reg[i] in dyn && reg[k] in dyn && dyn[reg[i]] == 0 ==> dyn[reg[k]] == 0
  }

  // Port names do not collide, numbered ones included, and counts are sane.
  ghost predicate NoCollision(reg: seq<string>, dyn: Counts) {
    Distinct(Expected(reg, dyn)) && Distinct(reg) && forall p :: p in dyn ==> dyn[p] <= LONG_MAX
  }

  // ------------------------------------------------------------ lists

  function ExpectedOne(p: string, dyn: Counts): seq<string> {
    if p in dyn then Numbered(p, dyn[p]) else [p]
  }

  function StaticOne(p: string, dyn: Counts): seq<string> {
    if p in dyn then [] else [p]
  }

  lemma OneMorePort(reg: seq<string>, p: string, dyn: Counts)
    ensures Expected(reg + [p], dyn) == Expected(reg, dyn) + ExpectedOne(p, dyn)
    ensures Statics(reg + [p], dyn) == Statics(reg, dyn) + StaticOne(p, dyn)
  {
    assert Front(reg + [p]) == reg;
  }

  lemma {:induction false} ExpectedConcat(a: seq<string>, b: seq<string>, dyn: Counts)
    ensures Expected(a + b, dyn) == Expected(a, dyn) + Expected(b, dyn)
    ensures Statics(a + b, dyn) == Statics(a, dyn) + Statics(b, dyn)
    decreases |b|
  {
    if b == [] {
      assert a + b == a;
    } else {
      hide Expected, Statics, ExpectedOne, StaticOne;
      var front, last := Front(b), Last(b);
      ExpectedConcat(a, front, dyn);
      assert b == front + [last] && a + b == (a + front) + [last];
      OneMorePort(a + front, last, dyn);
      OneMorePort(front, last, dyn);
      Associative(Expected(a, dyn), Expected(front, dyn), ExpectedOne(last, dyn));
      Associative(Statics(a, dyn), Statics(front, dyn), StaticOne(last, dyn));
    }
  }

  lemma {:induction false} StaticsExpected(reg: seq<string>, dyn: Counts)
    ensures forall x :: x in Statics(reg, dyn) ==> x in Expected(reg, dyn)
  {
    if reg != [] {
      StaticsExpected(Front(reg), dyn);
    }
  }

  // As long as no empty port precedes, positions are lengths.
  lemma {:induction false} InsertAtLength(reg: seq<string>, dyn: Counts)
    ensures InsertAt(reg, dyn) >= |Expected(reg, dyn)|
    ensures (forall p :: p in reg && p in dyn ==> dyn[p] > 0) <==> InsertAt(reg, dyn) == |Expected(reg, dyn)|
  {
    if reg != [] {
      FrontLast(reg);
      InsertAtLength(Front(reg), dyn);
      assert Last(reg) in reg;
    }
  }

  lemma SplitAt(reg: seq<string>, dyn: Counts, k: nat)
    requires k < |reg|
    ensures Expected(reg, dyn) == Expected(reg[..k], dyn) + Expected([reg[k]], dyn) + Expected(reg[k + 1..], dyn)
    ensures Statics(reg[k..], dyn) == Statics([reg[k]], dyn) + Statics(reg[k + 1..], dyn)
    ensures Expected(reg[..k + 1], dyn) == Expected(reg[..k], dyn) + Expected([reg[k]], dyn)
    ensures Slots(reg[..k + 1], dyn) ==
      Slots(reg[..k], dyn) + if reg[k] in dyn then [Slot(reg[k], InsertAt(reg[..k], dyn), dyn[reg[k]])] else []
  {
    assert reg == reg[..k + 1] + reg[k + 1..] && reg[..k + 1] == reg[..k] + [reg[k]] &&
      reg[k..] == [reg[k]] + reg[k + 1..];
    ExpectedConcat(reg[..k + 1], reg[k + 1..], dyn);
    ExpectedConcat(reg[..k], [reg[k]], dyn);
    ExpectedConcat([reg[k]], reg[k + 1..], dyn);
    assert Front(reg[..k + 1]) == reg[..k];
  }

  lemma OnePort(p: string, dyn: Counts)
    ensures Expected([p], dyn) == if p in dyn then Numbered(p, dyn[p]) else [p]
    ensures Statics([p], dyn) == if p in dyn then [] else [p]
  {
    assert Front([p]) == [];
  }

  lemma DistinctParts<T>(a: seq<T>, b: seq<T>, c: seq<T>)
    requires Distinct(a + b + c)
    ensures forall x :: x in b ==> x !in a && x !in c
    ensures forall x :: x in c ==> x !in a
  {
    var s := a + b + c;
    assert forall i :: 0 <= i < |a| ==> s[i] == a[i];
    assert forall i :: 0 <= i < |b| ==> s[|a| + i] == b[i];
    assert forall i :: 0 <= i < |c| ==> s[|a| + |b| + i] == c[i];
  }

  // --------------------------------------------------------------- layout

  // The loop's state after the ports of the first k registered names.
  ghost predicate LaidOut(reg: seq<string>, dyn: Counts, k: nat)
    requires k <= |reg|
  {
    InsertAll(Statics(reg, dyn), Slots(reg[..k], dyn)) == Expected(reg[..k], dyn) + Statics(reg[k..], dyn)
  }

  lemma NoneLaidOut(reg: seq<string>, dyn: Counts)
    ensures LaidOut(reg, dyn, 0)
  {
    assert reg[..0] == [] && reg[0..] == reg;
  }

  // What inserting the port at k makes of a layout that is right so far.
  lemma NextInserted(reg: seq<string>, dyn: Counts, k: nat)
    requires NoCollision(reg, dyn) && k < |reg| && LaidOut(reg, dyn, k)
    requires reg[k] in dyn && dyn[reg[k]] > 0
    ensures var names, at := Expected(reg[..k], dyn) + Statics(reg[k + 1..], dyn), InsertAt(reg[..k], dyn);
      InsertAll(Statics(reg, dyn), Slots(reg[..k + 1], dyn)) ==
        if at <= |names| then names[..at] + Numbered(reg[k], dyn[reg[k]]) + names[at..] else names
  {
    var p := reg[k];
    SplitAt(reg, dyn, k);
    OnePort(p, dyn);
    var e, n, s, t := Expected(reg[..k], dyn), Numbered(p, dyn[p]), Statics(reg[k + 1..], dyn),
      Expected(reg[k + 1..], dyn);
    var names, at := e + s, InsertAt(reg[..k], dyn);
    assert [] + s == s;
    DistinctParts(e, n, t);
    StaticsExpected(reg[k + 1..], dyn);
    assert Front(Slots(reg[..k + 1], dyn)) == Slots(reg[..k], dyn);
    hide InsertMiddle;
    InsertMiddleIs(names, p, dyn[p], at);
    if at > |names| {
      OutOfRange(names, p, dyn[p], at);
    }
  }

  lemma {:induction false} OutOfRange(names: seq<string>, p: string, n: nat, at: nat)
    requires at > |names|
    ensures InsertMiddle(names, p, n, at).names == names && (n > 0 ==> !InsertMiddle(names, p, n, at).ok)
  {
    if n > 0 {
      OutOfRange(names, p, n - 1, at);
    }
  }

  lemma NextLaidOut(reg: seq<string>, dyn: Counts, k: nat)
    requires NoCollision(reg, dyn) && k < |reg| && LaidOut(reg, dyn, k)
    requires reg[k] in dyn && dyn[reg[k]] > 0 ==> forall p :: p in reg[..k] && p in dyn ==> dyn[p] > 0
    ensures LaidOut(reg, dyn, k + 1)
  {
    var p := reg[k];
    SplitAt(reg, dyn, k);
    OnePort(p, dyn);
    var e, s := Expected(reg[..k], dyn), Statics(reg[k + 1..], dyn);
    if p !in dyn {
      assert Slots(reg[..k], dyn) + [] == Slots(reg[..k], dyn);
      Associative(e, [p], s);
    } else if dyn[p] == 0 {
      assert Front(Slots(reg[..k + 1], dyn)) == Slots(reg[..k], dyn);
      Associative(e, [], s);
    } else {
      NextInserted(reg, dyn, k);
      InsertAtLength(reg[..k], dyn);
      var names := e + s;
      assert names[..|e|] == e && names[|e|..] == s;
    }
  }

  lemma {:induction false} LaidOutTo(reg: seq<string>, dyn: Counts, k: nat)
    requires NoCollision(reg, dyn) && k <= |reg| && EmptyPortsLast(reg[..k], dyn)
    ensures LaidOut(reg, dyn, k)
    decreases k
  {
    hide LaidOut, NoCollision, EmptyPortsLast;
    if k == 0 {
      NoneLaidOut(reg, dyn);
    } else {
      AheadOfLast(reg, dyn, k);
      LaidOutTo(reg, dyn, k - 1);
      NextLaidOut(reg, dyn, k - 1);
    }
  }

  lemma AheadOfLast(reg: seq<string>, dyn: Counts, k: nat)
    requires 0 < k <= |reg| && EmptyPortsLast(reg[..k], dyn)
    ensures EmptyPortsLast(reg[..k - 1], dyn)
    ensures reg[k - 1] in dyn && dyn[reg[k - 1]] > 0 ==> forall p :: p in reg[..k - 1] && p in dyn ==> dyn[p] > 0
  {
    var all, front := reg[..k], reg[..k - 1];
    assert forall i :: 0 <= i < k - 1 ==> front[i] == all[i];
    forall p | p in front && p in dyn && reg[k - 1] in dyn && dyn[reg[k - 1]] > 0 ensures dyn[p] > 0 {
      var i :| 0 <= i < k - 1 && front[i] == p;
      assert all[i] == p && all[k - 1] == reg[k - 1];
    }
  }

  // ------------------------------------------------------------ the converse

  lemma {:induction false} AllKeepOrder(names: seq<string>, ps: seq<Slot>, qs: seq<Slot>, x: string, y: string)
    requires Before(InsertAll(names, ps), x, y)
    ensures Before(InsertAll(names, ps + qs), x, y)
    decreases |qs|
  {
    if qs == [] {
      assert ps + qs == ps;
    } else {
      assert Front(ps + qs) == ps + Front(qs);
      AllKeepOrder(names, ps, Front(qs), x, y);
      if Last(qs).num > 0 {
        hide InsertMiddle, Before;
        MiddleKeepsOrder(InsertAll(names, ps + Front(qs)), Last(qs).name, Last(qs).num, Last(qs).at, x, y);
      }
    }
  }

  lemma {:induction false} MiddleMembers(names: seq<string>, p: string, n: nat, at: nat, x: string)
    requires x in InsertMiddle(names, p, n, at).names
    ensures x in names || x in Numbered(p, n)
  {
    if n > 0 {
      var before := InsertMiddle(names, p, n - 1, at);
      if x in before.names {
        MiddleMembers(names, p, n - 1, at, x);
      }
    }
  }

  // The slots of the names from k on, as they stand in the whole list.
  function LaterSlots(reg: seq<string>, dyn: Counts, k: nat): seq<Slot>
    requires k <= |reg|
    decreases |reg|
  {
    if k == |reg| then []
    else LaterSlots(Front(reg), dyn, k)
         + if Last(reg) in dyn then [Slot(Last(reg), InsertAt(Front(reg), dyn), dyn[Last(reg)])] else []
  }

  lemma {:induction false} SlotsSplit(reg: seq<string>, dyn: Counts, k: nat)
    requires k <= |reg|
    ensures Slots(reg, dyn) == Slots(reg[..k], dyn) + LaterSlots(reg, dyn, k)
    decreases |reg|
  {
    if k == |reg| {
      assert reg[..k] == reg;
    } else {
      assert Front(reg)[..k] == reg[..k];
      SlotsSplit(Front(reg), dyn, k);
    }
  }

  lemma OneMoreSlot(names: seq<string>, ps: seq<Slot>, slot: Slot, x: string)
    requires x in InsertAll(names, ps + [slot])
    ensures x in InsertAll(names, ps) || x in Numbered(slot.name, slot.num)
  {
    assert Front(ps + [slot]) == ps;
    hide InsertMiddle, Numbered;
    if slot.num > 0 {
      MiddleMembers(InsertAll(names, ps), slot.name, slot.num, slot.at, x);
    }
  }

  // What the ports from k on bring belongs to the layout of these ports.
  lemma {:induction false} LaterMembers(names: seq<string>, reg: seq<string>, dyn: Counts, ps: seq<Slot>, k: nat,
                                        x: string)
    requires k <= |reg| && x in InsertAll(names, ps + LaterSlots(reg, dyn, k))
    ensures x in InsertAll(names, ps) || x in Expected(reg[k..], dyn)
    decreases |reg|
  {
    hide InsertAll, Expected, Numbered;
    if k == |reg| {
      assert ps + [] == ps;
    } else {
      var front, last := Front(reg), Last(reg);
      assert reg[k..] == front[k..] + [last];
      ExpectedConcat(front[k..], [last], dyn);
      var qs := LaterSlots(front, dyn, k);
      if last in dyn {
        var slot := Slot(last, InsertAt(front, dyn), dyn[last]);
        Associative(ps, qs, [slot]);
        OneMoreSlot(names, ps + qs, slot, x);
        OnePort(last, dyn);
      } else {
        assert qs + [] == qs;
      }
      if x in InsertAll(names, ps + qs) {
        LaterMembers(names, front, dyn, ps, k, x);
      }
    }
  }

  lemma NotBefore(a: seq<string>, b: seq<string>, x: string, y: string)
    requires Distinct(a + b) && x in b && y in a
    ensures !Before(a + b, x, y)
  {
    var s := a + b;
    var i :| 0 <= i < |b| && b[i] == x;
    var j :| 0 <= j < |a| && a[j] == y;
    assert s[|a| + i] == x && s[j] == y;
  }

  // The first port with tensors behind one without is misplaced for good.
  lemma Misplaced(reg: seq<string>, dyn: Counts, i: nat, k: nat)
    requires NoCollision(reg, dyn) && i < k < |reg| && LaidOut(reg, dyn, k)
    requires reg[i] in dyn && dyn[reg[i]] == 0 && reg[k] in dyn && dyn[reg[k]] > 0
    ensures InsertAll(Statics(reg, dyn), Slots(reg, dyn)) != Expected(reg, dyn)
  {
    hide *;
    var p := reg[k];
    TooFar(reg, dyn, i, k);
    NextInserted(reg, dyn, k);
    SplitAt(reg, dyn, k);
    OnePort(p, dyn);
    SlotsSplit(reg, dyn, k + 1);
    StaticsExpected(reg[k + 1..], dyn);
    DistinctExpected(reg, dyn);
    FirstNumber(p, dyn[p]);
    AfterAll(reg, dyn, k, Expected(reg[..k], dyn), Numbered(p, dyn[p]), Statics(reg[k + 1..], dyn),
             Expected(reg[k + 1..], dyn), InsertAt(reg[..k], dyn), NumberedName(p, 0));
  }

  lemma TooFar(reg: seq<string>, dyn: Counts, i: nat, k: nat)
    requires i < k < |reg| && reg[i] in dyn && dyn[reg[i]] == 0
    ensures InsertAt(reg[..k], dyn) > |Expected(reg[..k], dyn)|
  {
    hide InsertAt, Expected;
    InsertAtLength(reg[..k], dyn);
    assert reg[..k][i] == reg[i] && reg[i] in reg[..k];
  }

  lemma FirstNumber(p: string, n: nat)
    requires n > 0
    ensures Numbered(p, n) != [] && Numbered(p, n)[0] == NumberedName(p, 0)
  {
    NumberedAre(p, n);
  }

  lemma AfterAll(reg: seq<string>, dyn: Counts, k: nat, e: seq<string>, n: seq<string>, s: seq<string>, t: seq<string>,
                 at: nat, p0: string)
    requires k < |reg| && e + n + t == Expected(reg, dyn) && t == Expected(reg[k + 1..], dyn) && Distinct(e + n + t)
    requires n != [] && n[0] == p0 && (forall x :: x in s ==> x in t) && at > |e|
    requires InsertAll(Statics(reg, dyn), Slots(reg[..k + 1], dyn)) ==
      if at <= |e + s| then (e + s)[..at] + n + (e + s)[at..] else e + s
    requires Slots(reg, dyn) == Slots(reg[..k + 1], dyn) + LaterSlots(reg, dyn, k + 1)
    ensures InsertAll(Statics(reg, dyn), Slots(reg, dyn)) != Expected(reg, dyn)
  {
    DistinctParts(e, n, t);
    assert p0 in n;
    hide InsertAll, Slots, Expected, Statics, LaterSlots, Before;
    if at > |e + s| {
      Missing(reg, dyn, k, e, n, s, t, p0);
    } else {
      var x := (e + s)[at - 1];
      assert x == s[at - 1 - |e|] && x in t;
      InsertedBehind(e + s, n, at, x, p0);
      AllKeepOrder(Statics(reg, dyn), Slots(reg[..k + 1], dyn), LaterSlots(reg, dyn, k + 1), x, p0);
      NotBefore(e + n, t, x, p0);
    }
  }

  lemma DistinctExpected(reg: seq<string>, dyn: Counts)
    requires NoCollision(reg, dyn)
    ensures Distinct(Expected(reg, dyn))
  {
  }

  lemma InsertedBehind(names: seq<string>, n: seq<string>, at: nat, x: string, p0: string)
    requires 0 < at <= |names| && x == names[at - 1] && n != [] && n[0] == p0
    ensures Before(names[..at] + n + names[at..], x, p0)
  {
    var r := names[..at] + n + names[at..];
    assert r[at - 1] == x && r[at] == p0;
  }

  // Out of range, the port is missing: no later port brings its names.
  lemma Missing(reg: seq<string>, dyn: Counts, k: nat, e: seq<string>, n: seq<string>, s: seq<string>, t: seq<string>,
                p0: string)
    requires k < |reg| && e + n + t == Expected(reg, dyn) && t == Expected(reg[k + 1..], dyn) && p0 in n
    requires p0 !in e && p0 !in t && (forall x :: x in s ==> x in t)
    requires InsertAll(Statics(reg, dyn), Slots(reg[..k + 1], dyn)) == e + s
    requires Slots(reg, dyn) == Slots(reg[..k + 1], dyn) + LaterSlots(reg, dyn, k + 1)
    ensures InsertAll(Statics(reg, dyn), Slots(reg, dyn)) != Expected(reg, dyn)
  {
    assert p0 in e + n + t;
    if p0 in InsertAll(Statics(reg, dyn), Slots(reg, dyn)) {
      LaterMembers(Statics(reg, dyn), reg, dyn, Slots(reg[..k + 1], dyn), k + 1, p0);
    }
  }

  // Where the condition fails first.
  lemma {:induction false} FirstMisplaced(reg: seq<string>, dyn: Counts) returns (i: nat, k: nat)
    requires !EmptyPortsLast(reg, dyn)
    ensures i < k < |reg| && reg[i] in dyn && dyn[reg[i]] == 0 && reg[k] in dyn && dyn[reg[k]] > 0
    ensures EmptyPortsLast(reg[..k], dyn)
  {
    var front := Front(reg);
    if EmptyPortsLast(front, dyn) {
      assert forall x :: 0 <= x < |front| ==> front[x] == reg[x];
      var b;
      i, b :| 0 <= i < b < |reg| && reg[i] in dyn && reg[b] in dyn && dyn[reg[i]] == 0 && dyn[reg[b]] != 0;
      k := |front|;
      assert reg[..k] == front;
    } else {
      i, k := FirstMisplaced(front, dyn);
      assert front[..k] == reg[..k];
    }
  }

  // The layout theorem: the loop produces the promised layout exactly when no
  // dynamic port without tensors is registered ahead of one with tensors.
  lemma LayoutIff(reg: seq<string>, dyn: Counts)
    requires NoCollision(reg, dyn)
    ensures InsertAll(Statics(reg, dyn), Slots(reg, dyn)) == Expected(reg, dyn) <==> EmptyPortsLast(reg, dyn)
  {
    if EmptyPortsLast(reg, dyn) {
      assert reg[..|reg|] == reg && reg[|reg|..] == [];
      LaidOutTo(reg, dyn, |reg|);
    } else {
      var i, k := FirstMisplaced(reg, dyn);
      LaidOutTo(reg, dyn, k);
      Misplaced(reg, dyn, i, k);
    }
  }
}
