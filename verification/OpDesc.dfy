// The input (or output) descriptors of an operator: a list, and a map from
// names to positions that every insertion has to shift.
module OpDescs {
  import opened Links
  import opened NodeIndex

  datatype TensorDesc = TensorDesc(format: string, shape: seq<int>)

  const EMPTY_DESC: TensorDesc := TensorDesc("ND", [])

  // -------------------------------------------------------------- layouts

  function Inserted<T>(s: seq<T>, at: nat, x: T): (r: seq<T>)
    requires at <= |s|
    ensures |r| == |s| + 1
  {
    s[..at] + [x] + s[at..]
  }

  function NumberedName(p: string, i: nat): string {
    p + ToString(i)
  }

  // p0, p1, .. p(n-1)
  function Numbered(p: string, n: nat): (r: seq<string>)
    ensures |r| == n
  {
    if n == 0 then [] else Numbered(p, n - 1) + [NumberedName(p, n - 1)]
  }

  // Inserting n numbered names one after the other from position at on; the
  // first name that is taken, or a position out of range, ends it.
  datatype Outcome = Outcome(ok: bool, names: seq<string>)

  function InsertMiddle(names: seq<string>, p: string, n: nat, at: nat): (r: Outcome)
    ensures |names| <= |r.names| <= |names| + n
    ensures r.ok ==> |r.names| == |names| + n
  {
    if n == 0 then Outcome(true, names) else
    var before := InsertMiddle(names, p, n - 1, at);
    if !before.ok || NumberedName(p, n - 1) in before.names || at > |names| then Outcome(false, before.names)
    else Outcome(true, Inserted(before.names, at + n - 1, NumberedName(p, n - 1)))
  }

  function InsertForward(names: seq<string>, p: string, n: nat): Outcome {
    if n == 0 then Outcome(true, names) else
    var before := InsertForward(names, p, n - 1);
    if !before.ok || NumberedName(p, n - 1) in before.names then Outcome(false, before.names)
    else Outcome(true, [NumberedName(p, n - 1)] + before.names)
  }

  lemma NumberedInjective(p: string, i: nat, j: nat)
    requires NumberedName(p, i) == NumberedName(p, j) && i <= LONG_MAX && j <= LONG_MAX
    ensures i == j
  {
    StrTolOfToString(i);
    StrTolOfToString(j);
    assert NumberedName(p, i)[|p|..] == ToString(i) && NumberedName(p, j)[|p|..] == ToString(j);
  }

  lemma {:induction false} NumberedAre(p: string, n: nat)
    ensures forall i :: 0 <= i < n ==> Numbered(p, n)[i] == NumberedName(p, i)
    ensures forall x :: x in Numbered(p, n) ==> exists i: nat :: i < n && x == NumberedName(p, i)
  {
    if n > 0 {
      NumberedAre(p, n - 1);
    }
  }

  lemma NextNumberNew(p: string, n: nat)
    requires n <= LONG_MAX
    ensures NumberedName(p, n) !in Numbered(p, n)
  {
    NumberedAre(p, n);
    forall i: nat | i < n ensures NumberedName(p, i) != NumberedName(p, n) {
      if NumberedName(p, i) == NumberedName(p, n) {
        NumberedInjective(p, i, n);
      }
    }
  }

  // When no name is taken and the position is in range, the numbered names
  // stand together at that position; otherwise the insertion fails.
  lemma {:induction false} InsertMiddleIs(names: seq<string>, p: string, n: nat, at: nat)
    requires n <= LONG_MAX
    ensures InsertMiddle(names, p, n, at).ok <==>
      n == 0 || (at <= |names| && forall x :: x in Numbered(p, n) ==> x !in names)
    ensures InsertMiddle(names, p, n, at).ok && n > 0 ==>
      InsertMiddle(names, p, n, at).names == names[..at] + Numbered(p, n) + names[at..]
  {
    if n > 0 {
      InsertMiddleIs(names, p, n - 1, at);
      var before := InsertMiddle(names, p, n - 1, at);
      var x := NumberedName(p, n - 1);
      assert Numbered(p, n) == Numbered(p, n - 1) + [x];
      if before.ok && at <= |names| {
        assert before.names == names[..at] + Numbered(p, n - 1) + names[at..] by {
          if n == 1 {
            assert names[..at] + [] + names[at..] == names;
          }
        }
        NextNumberNew(p, n - 1);
        NewMember(names, at, Numbered(p, n - 1), x);
        if x !in names {
          SpliceEnd(names[..at], Numbered(p, n - 1), names[at..], x);
        }
      }
    }
  }

  lemma NewMember(names: seq<string>, at: nat, more: seq<string>, x: string)
    requires at <= |names| && x !in more
    ensures x in names[..at] + more + names[at..] <==> x in names
  {
    assert names == names[..at] + names[at..];
  }

  lemma SpliceEnd<T>(a: seq<T>, b: seq<T>, c: seq<T>, x: T)
    ensures Inserted(a + b + c, |a| + |b|, x) == a + (b + [x]) + c
  {
  }

  // Inserting at the front one after the other turns the numbered names round.
  lemma {:induction false} InsertForwardIs(names: seq<string>, p: string, n: nat)
    requires n <= LONG_MAX
    ensures InsertForward(names, p, n).ok <==> forall x :: x in Numbered(p, n) ==> x !in names
    ensures InsertForward(names, p, n).ok ==> InsertForward(names, p, n).names == Reversed(Numbered(p, n)) + names
  {
    if n > 0 {
      InsertForwardIs(names, p, n - 1);
      NextNumberNew(p, n - 1);
      var x := NumberedName(p, n - 1);
      ReversedMembers(Numbered(p, n - 1));
      assert Numbered(p, n) == Numbered(p, n - 1) + [x] && Front(Numbered(p, n)) == Numbered(p, n - 1);
      var before := InsertForward(names, p, n - 1);
      assert before.ok ==> (x in before.names <==> x in names);
    }
  }

  lemma {:induction false} ReversedMembers<T>(s: seq<T>)
    ensures forall x :: x in Reversed(s) <==> x in s
  {
    if s != [] {
      FrontLast(s);
      ReversedMembers(Front(s));
    }
  }

  lemma InsertedKeepsOrder(names: seq<string>, at: nat, n: string, x: string, y: string)
    requires at <= |names| && Before(names, x, y)
    ensures Before(Inserted(names, at, n), x, y)
  {
    var i, j :| 0 <= i < j < |names| && names[i] == x && names[j] == y;
    var r := Inserted(names, at, n);
    var a, b := if i < at then i else i + 1, if j < at then j else j + 1;
    assert r[a] == x && r[b] == y;
  }

  lemma {:induction false} MiddleKeepsOrder(names: seq<string>, p: string, n: nat, at: nat, x: string, y: string)
    requires Before(names, x, y)
    ensures Before(InsertMiddle(names, p, n, at).names, x, y)
  {
    if n > 0 {
      MiddleKeepsOrder(names, p, n - 1, at, x, y);
      var before := InsertMiddle(names, p, n - 1, at);
      if before.ok && NumberedName(p, n - 1) !in before.names && at <= |names| {
        InsertedKeepsOrder(before.names, at + n - 1, NumberedName(p, n - 1), x, y);
      }
    }
  }

  // ------------------------------------------------------------- the table

  // index maps the names, one to one, onto the positions of names.
  ghost predicate Indexed(index: map<string, nat>, names: seq<string>) {
    && (forall i {:trigger names[i]} :: 0 <= i < |names| ==> names[i] in index && index[names[i]] == i)
    && (forall x {:trigger index[x]} :: x in index ==> index[x] < |names| && names[index[x]] == x)
  }

  // Every name of the old table still denotes the descriptor it denoted.
  ghost predicate Denotes(index: map<string, nat>, descs: seq<TensorDesc>, index': map<string, nat>,
                          descs': seq<TensorDesc>) {
    forall x :: x in index && index[x] < |descs| ==>
      x in index' && index'[x] < |descs'| && descs'[index'[x]] == descs[index[x]]
  }

  function Shifted(index: map<string, nat>, from: nat): map<string, nat> {
    map x | x in index :: if index[x] >= from then index[x] + 1 else index[x]
  }

  lemma IndexedInserted(index: map<string, nat>, names: seq<string>, at: nat, x: string)
    requires Indexed(index, names) && at <= |names| && x !in index
    ensures Indexed(Shifted(index, at)[x := at], Inserted(names, at, x))
  {
    var index', names' := Shifted(index, at)[x := at], Inserted(names, at, x);
    forall i | 0 <= i < |names'| ensures names'[i] in index' && index'[names'[i]] == i {
      if i < at {
        assert names'[i] == names[i];
      } else if i > at {
        assert names'[i] == names[i - 1];
      }
    }
    forall y | y in index' ensures index'[y] < |names'| && names'[index'[y]] == y {
      if y != x {
        assert names[index[y]] == y;
      }
    }
  }

  lemma DenotesInserted(index: map<string, nat>, descs: seq<TensorDesc>, at: nat, x: string, d: TensorDesc)
    requires at <= |descs| && x !in index
    ensures Denotes(index, descs, Shifted(index, at)[x := at], Inserted(descs, at, d))
  {
  }

  lemma DenotesOn(i0: map<string, nat>, d0: seq<TensorDesc>, i1: map<string, nat>, d1: seq<TensorDesc>,
                  i2: map<string, nat>, d2: seq<TensorDesc>)
    requires Denotes(i0, d0, i1, d1) && Denotes(i1, d1, i2, d2)
    ensures Denotes(i0, d0, i2, d2)
  {
  }

  class PortTable {
    var index: map<string, nat>
    var descs: seq<TensorDesc>
    var registered: seq<string>
    ghost var names: seq<string>

    constructor ()
      ensures Valid() && names == [] && registered == []
    {
      index, descs, registered, names := map[], [], [], [];
    }

    ghost predicate Valid()
      reads this
    {
      Indexed(index, names) && |descs| == |names|
    }

    // AddInputDesc: a known name gets a new descriptor, a new one goes to the
    // end.
    method AddDesc(name: string, desc: TensorDesc)
      requires Valid()
      modifies this
      ensures Valid() && names == if name in old(names) then old(names) else old(names) + [name]
      ensures name in index && descs[index[name]] == desc
      ensures forall x :: x in old(index) && x != name ==>
        x in index && index[x] == old(index)[x] && descs[index[x]] == old(descs)[old(index)[x]]
      ensures registered ==
        if name in old(names) || name in old(registered) then old(registered) else old(registered) + [name]
    {
      assert name in index <==> name in names by {
        IndexedMember(index, names, name);
      }
      if name in index {
        descs := descs[index[name] := desc];
      } else {
        index := index[name := |descs|];
        descs := descs + [desc];
        names := names + [name];
        if name !in registered {
          registered := registered + [name];
        }
      }
    }

    // AddOutputDesc: a known name is refused.
    method AddNewDesc(name: string, desc: TensorDesc) returns (ok: bool)
      requires Valid()
      modifies this
      ensures Valid() && ok == (name !in old(names)) && names == if ok then old(names) + [name] else old(names)
      ensures ok ==> index == old(index)[name := |old(descs)|] && descs == old(descs) + [desc]
      ensures !ok ==> index == old(index) && descs == old(descs) && registered == old(registered)
      ensures ok ==> registered == if name in old(registered) then old(registered) else old(registered) + [name]
    {
      IndexedMember(index, names, name);
      ok := name !in index;
      if ok {
        index := index[name := |descs|];
        descs := descs + [desc];
        names := names + [name];
        if name !in registered {
          registered := registered + [name];
        }
      }
    }

    // One desc at a position: the positions from there on move up.
    method InsertOne(name: string, at: nat)
      requires Valid() && name !in index && at <= |descs|
      modifies this`index, this`descs, this`names
      ensures Valid() && names == Inserted(old(names), at, name)
      ensures Denotes(old(index), old(descs), index, descs)
    {
      IndexedInserted(index, names, at, name);
      DenotesInserted(index, descs, at, name, EMPTY_DESC);
      ghost var start := index;
      descs := descs[..at] + [EMPTY_DESC] + descs[at..];
      ShiftFrom(at);
      index := index[name := at];
      names := Inserted(names, at, name);
    }

    method ShiftFrom(from: nat)
      modifies this`index
      ensures index == Shifted(old(index), from)
    {
      var rest := index.Keys;
      while rest != {}
        invariant rest <= index.Keys && index.Keys == old(index).Keys
        invariant forall x :: x in index ==>
          index[x] == if x in rest then old(index)[x] else Shifted(old(index), from)[x]
        decreases rest
      {
        var x :| x in rest;
        rest := rest - {x};
        if index[x] >= from {
          index := index[x := index[x] + 1];
        }
      }
    }

    // AddInputDescMiddle / AddOutputDescMiddle.
    method AddDescMiddle(name: string, num: nat, at: nat) returns (ok: bool)
      requires Valid()
      modifies this`index, this`descs, this`names
      ensures Valid() && Outcome(ok, names) == InsertMiddle(old(names), name, num, at)
      ensures Denotes(old(index), old(descs), index, descs)
    {
      hide InsertMiddle, Indexed, Denotes, NumberedName;
      MiddleStart(names, name, at);
      DenotesSame(index, descs);
      for i := 0 to num
        invariant Valid() && Outcome(true, names) == InsertMiddle(old(names), name, i, at)
        invariant Denotes(old(index), old(descs), index, descs)
      {
        MiddleNext(old(names), name, num, i, at);
        IndexedMember(index, names, NumberedName(name, i));
        if NumberedName(name, i) in index || at > |descs| {
          return false;
        }
        ghost var index', descs' := index, descs;
        InsertOne(NumberedName(name, i), at + i);
        DenotesOn(old(index), old(descs), index', descs', index, descs);
      }
      ok := true;
    }

    // AddInputDescForward: each new name becomes the first.
    method AddDescForward(name: string, num: nat) returns (ok: bool)
      requires Valid()
      modifies this`index, this`descs, this`names
      ensures Valid() && Outcome(ok, names) == InsertForward(old(names), name, num)
      ensures Denotes(old(index), old(descs), index, descs)
    {
      hide InsertForward, Indexed, Denotes, NumberedName;
      ForwardStart(names, name);
      DenotesSame(index, descs);
      for i := 0 to num
        invariant Valid() && Outcome(true, names) == InsertForward(old(names), name, i)
        invariant Denotes(old(index), old(descs), index, descs)
      {
        ForwardNext(old(names), name, num, i);
        IndexedMember(index, names, NumberedName(name, i));
        if NumberedName(name, i) in index {
          return false;
        }
        ghost var index', descs', names' := index, descs, names;
        InsertOne(NumberedName(name, i), 0);
        assert Inserted(names', 0, NumberedName(name, i)) == [NumberedName(name, i)] + names';
        DenotesOn(old(index), old(descs), index', descs', index, descs);
      }
      ok := true;
    }
  }

  lemma IndexedMember(index: map<string, nat>, names: seq<string>, x: string)
    requires Indexed(index, names)
    ensures x in index <==> x in names
  {
    if x in index {
      assert names[index[x]] == x;
    }
  }

  lemma DenotesSame(index: map<string, nat>, descs: seq<TensorDesc>)
    ensures Denotes(index, descs, index, descs)
  {
  }

  lemma MiddleStart(names: seq<string>, p: string, at: nat)
    ensures InsertMiddle(names, p, 0, at) == Outcome(true, names)
  {
  }

  // A step that is refused ends the whole insertion.
  lemma {:induction false} MiddleNext(names: seq<string>, p: string, n: nat, i: nat, at: nat)
    requires i < n && InsertMiddle(names, p, i, at).ok
    ensures var now := InsertMiddle(names, p, i, at).names;
      if NumberedName(p, i) in now || at > |now| then InsertMiddle(names, p, n, at) == Outcome(false, now)
      else
        at + i <= |now| &&
        InsertMiddle(names, p, i + 1, at) == Outcome(true, Inserted(now, at + i, NumberedName(p, i)))
    decreases n
  {
    OkMeansInRange(names, p, i, at);
    if n > i + 1 {
      MiddleNext(names, p, n - 1, i, at);
    }
  }

  lemma OkMeansInRange(names: seq<string>, p: string, i: nat, at: nat)
    requires InsertMiddle(names, p, i, at).ok
    ensures i > 0 ==> at <= |names|
  {
  }

  lemma ForwardStart(names: seq<string>, p: string)
    ensures InsertForward(names, p, 0) == Outcome(true, names)
  {
  }

  lemma {:induction false} ForwardNext(names: seq<string>, p: string, n: nat, i: nat)
    requires i < n && InsertForward(names, p, i).ok
    ensures var now := InsertForward(names, p, i).names;
      if NumberedName(p, i) in now then InsertForward(names, p, n) == Outcome(false, now)
      else InsertForward(names, p, i + 1) == Outcome(true, [NumberedName(p, i)] + now)
    decreases n
  {
    if n > i + 1 {
      ForwardNext(names, p, n - 1, i);
    }
  }
}
