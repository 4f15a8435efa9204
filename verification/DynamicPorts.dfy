// AutoMappingByOpFnDynamic: positions for the dynamic ports are computed from
// the registered order, the ports are sorted by position, and their tensors
// are inserted one port after the other.
module DynamicPorts {
  import opened Links
  import opened OpDescs
  import opened PortLayout

  datatype DynamicType = InputPort | OutputPort

  // One line of the plugin's table: a port and the attribute with its count.
  datatype DynamicAttr = DynamicAttr(kind: DynamicType, portName: string, attrName: string)

  datatype DynamicInfo = DynamicInfo(kind: DynamicType, insertIndex: nat, tensorNum: nat)

  datatype Entry = Entry(name: string, info: DynamicInfo)

  type PortInfo = map<string, DynamicInfo>

  class OpDesc {
    const inputs: PortTable
    const outputs: PortTable
    const attrs: map<string, nat>  // tensor counts, by attribute name

    constructor (inputs: PortTable, outputs: PortTable, attrs: map<string, nat>)
      ensures this.inputs == inputs && this.outputs == outputs && this.attrs == attrs
    {
      this.inputs, this.outputs, this.attrs := inputs, outputs, attrs;
    }
  }

  // ------------------------------------------------------- the positions

  // Ports whose attribute exists; a later line for a port replaces an earlier.
  function Collected(attrs: map<string, nat>, table: seq<DynamicAttr>): PortInfo {
    if table == [] then map[]
    else
      var before, last := Collected(attrs, Front(table)), Last(table);
      if last.attrName in attrs
      then before[last.portName := DynamicInfo(last.kind, 0, attrs[last.attrName])] else before
  }

  function Nums(info: PortInfo): Counts {
    map p | p in info :: info[p].tensorNum
  }

  // Positions for the dynamic ports among the registered names.
  function Assigned(info: PortInfo, reg: seq<string>): PortInfo {
    if reg == [] then info
    else
      var before := Assigned(info, Front(reg));
      if Last(reg) in before then
        before[Last(reg) := before[Last(reg)].(insertIndex := InsertAt(Front(reg), Nums(info)))]
      else before
  }

  lemma {:induction false} AssignedKeeps(info: PortInfo, reg: seq<string>)
    ensures var r := Assigned(info, reg);
      && r.Keys == info.Keys && Nums(r) == Nums(info)
      && forall p :: p in info ==> r[p].kind == info[p].kind && (p !in reg ==> r[p] == info[p])
  {
    if reg != [] {
      FrontLast(reg);
      AssignedKeeps(info, Front(reg));
      var before, r := Assigned(info, Front(reg)), Assigned(info, reg);
      forall p | p in info ensures r[p].tensorNum == before[p].tensorNum {
      }
      assert forall p :: p in info ==> Nums(before)[p] == before[p].tensorNum && Nums(info)[p] == info[p].tensorNum;
    }
  }

  method CollectPorts(op: OpDesc, table: seq<DynamicAttr>) returns (info: PortInfo)
    ensures info == Collected(op.attrs, table)
  {
    info := map[];
    for k := 0 to |table|
      invariant info == Collected(op.attrs, table[..k])
    {
      assert Front(table[..k + 1]) == table[..k];
      if table[k].attrName in op.attrs {
        info := info[table[k].portName := DynamicInfo(table[k].kind, 0, op.attrs[table[k].attrName])];
      }
    }
    assert table[..|table|] == table;
  }

  method AssignPositions(start: PortInfo, reg: seq<string>) returns (info: PortInfo)
    ensures info == Assigned(start, reg)
  {
    info := start;
    var index: nat, increment: nat := 0, 0;
    ghost var dyn := Nums(start);
    hide Nums, InsertAt, Assigned;
    PositionStart(start, dyn);
    for k := 0 to |reg|
      invariant info == Assigned(start, reg[..k]) && index == k && index + increment == InsertAt(reg[..k], dyn)
    {
      PositionStep(start, info, reg, k);
      if reg[k] in info {
        info := info[reg[k] := info[reg[k]].(insertIndex := index + increment)];
        var num := info[reg[k]].tensorNum;
        increment := increment + if num > 0 then num - 1 else 0;
      }
      index := index + 1;
    }
    assert reg[..|reg|] == reg;
  }

  lemma PositionStart(start: PortInfo, dyn: Counts)
    ensures InsertAt([], dyn) == 0 && Assigned(start, []) == start
  {
  }

  lemma PositionStep(start: PortInfo, info: PortInfo, reg: seq<string>, k: nat)
    requires k < |reg| && info == Assigned(start, reg[..k])
    ensures var dyn, p := Nums(start), reg[k];
      && Assigned(start, reg[..k + 1]) ==
           (if p in info then info[p := info[p].(insertIndex := InsertAt(reg[..k], dyn))] else info)
      && InsertAt(reg[..k + 1], dyn) ==
           InsertAt(reg[..k], dyn) + 1 + if p in info && info[p].tensorNum > 0 then info[p].tensorNum - 1 else 0
  {
    assert Front(reg[..k + 1]) == reg[..k];
    AssignedKeeps(start, reg[..k]);
    if reg[k] in info {
      assert Nums(info)[reg[k]] == info[reg[k]].tensorNum;
    }
  }

  function Positions(op: OpDesc, table: seq<DynamicAttr>): PortInfo
    reads op.inputs, op.outputs
  {
    Assigned(Assigned(Collected(op.attrs, table), op.inputs.registered), op.outputs.registered)
  }

  method UpdateDynamicInputOutPutIndex(op: OpDesc, table: seq<DynamicAttr>) returns (info: PortInfo)
    ensures info == Positions(op, table)
  {
    info := CollectPorts(op, table);
    info := AssignPositions(info, op.inputs.registered);
    info := AssignPositions(info, op.outputs.registered);
  }

  // -------------------------------------------------------------- sorting

  ghost predicate Sorted(ps: seq<Entry>) {
    forall i, j :: 0 <= i < j < |ps| ==> ps[i].info.insertIndex <= ps[j].info.insertIndex
  }

  // The entries of the names in done, each once.
  ghost predicate EntriesOf(ps: seq<Entry>, info: PortInfo, done: set<string>) {
    && (forall e :: e in ps ==> e.name in done && e.name in info && e.info == info[e.name])
    && (forall p :: p in done && p in info ==> Entry(p, info[p]) in ps)
    && (forall i, j :: 0 <= i < j < |ps| ==> ps[i].name != ps[j].name)
  }

  method SortByIndex(info: PortInfo) returns (ps: seq<Entry>)
    ensures Sorted(ps) && EntriesOf(ps, info, info.Keys)
  {
    hide Sorted, EntriesOf, Inserted;
    ps := [];
    var rest := info.Keys;
    NoEntries(info);
    while rest != {}
      invariant rest <= info.Keys && Sorted(ps) && EntriesOf(ps, info, info.Keys - rest)
      decreases rest
    {
      var p :| p in rest;
      var k: nat := |ps|;
      while k > 0 && ps[k - 1].info.insertIndex > info[p].insertIndex
        invariant k <= |ps| && forall j: nat :: k <= j < |ps| ==> ps[j].info.insertIndex > info[p].insertIndex
      {
        k := k - 1;
      }
      EntryInserted(ps, info, info.Keys - rest, k, p);
      assert info.Keys - rest + {p} == info.Keys - (rest - {p});
      ps := Inserted(ps, k, Entry(p, info[p]));
      rest := rest - {p};
    }
    assert info.Keys - {} == info.Keys;
  }

  lemma NoEntries(info: PortInfo)
    ensures Sorted([]) && EntriesOf([], info, info.Keys - info.Keys)
  {
  }

  lemma EntryInserted(ps: seq<Entry>, info: PortInfo, done: set<string>, k: nat, p: string)
    requires Sorted(ps) && EntriesOf(ps, info, done) && k <= |ps| && p in info && p !in done
    requires forall j: nat :: k <= j < |ps| ==> ps[j].info.insertIndex > info[p].insertIndex
    requires k > 0 ==> ps[k - 1].info.insertIndex <= info[p].insertIndex
    ensures Sorted(Inserted(ps, k, Entry(p, info[p]))) &&
      EntriesOf(Inserted(ps, k, Entry(p, info[p])), info, done + {p})
  {
    var e := Entry(p, info[p]);
    SortedInserted(ps, k, e);
    InsertedMembers(ps, k, e);
    NamesInserted(ps, info, done, k, p);
    hide Inserted, Sorted;
    assert EntriesOf(Inserted(ps, k, e), info, done + {p}) by {
      EntriesPlus(ps, info, done, p, Inserted(ps, k, e));
    }
  }

  lemma EntriesPlus(ps: seq<Entry>, info: PortInfo, done: set<string>, p: string, r: seq<Entry>)
    requires EntriesOf(ps, info, done) && p in info
    requires forall y :: y in r <==> y in ps || y == Entry(p, info[p])
    requires forall i, j :: 0 <= i < j < |r| ==> r[i].name != r[j].name
    ensures EntriesOf(r, info, done + {p})
  {
    forall x | x in done + {p} && x in info ensures Entry(x, info[x]) in r {
      assert x != p ==> x in done && Entry(x, info[x]) in ps;
    }
  }

  lemma SortedInserted(ps: seq<Entry>, k: nat, e: Entry)
    requires Sorted(ps) && k <= |ps|
    requires forall j: nat :: k <= j < |ps| ==> ps[j].info.insertIndex > e.info.insertIndex
    requires k > 0 ==> ps[k - 1].info.insertIndex <= e.info.insertIndex
    ensures Sorted(Inserted(ps, k, e))
  {
    var r := Inserted(ps, k, e);
    assert forall i :: 0 <= i < k ==> r[i] == ps[i] && ps[i].info.insertIndex <= e.info.insertIndex;
    assert forall i :: k < i < |r| ==> r[i] == ps[i - 1];
  }

  lemma InsertedMembers<T>(s: seq<T>, k: nat, x: T)
    requires k <= |s|
    ensures forall y :: y in Inserted(s, k, x) <==> y in s || y == x
  {
    assert s == s[..k] + s[k..];
  }

  lemma NamesInserted(ps: seq<Entry>, info: PortInfo, done: set<string>, k: nat, p: string)
    requires EntriesOf(ps, info, done) && k <= |ps| && p in info && p !in done
    ensures var r := Inserted(ps, k, Entry(p, info[p]));
      forall i, j :: 0 <= i < j < |r| ==> r[i].name != r[j].name
  {
    assert forall i :: 0 <= i < |ps| ==> ps[i] in ps && ps[i].name != p;
    assert forall i, j :: 0 <= i < j < |ps| ==> ps[i].name != ps[j].name;
    hide EntriesOf;
    var r := Inserted(ps, k, Entry(p, info[p]));
    forall i, j | 0 <= i < j < |r| ensures r[i].name != r[j].name {
      assert i != k ==> r[i] == ps[if i < k then i else i - 1];
      assert j != k ==> r[j] == ps[if j < k then j else j - 1];
    }
  }

  // ------------------------------------------------------------ insertion

  function OfKind(ps: seq<Entry>, kind: DynamicType): seq<Slot> {
    if ps == [] then []
    else
      var last := Last(ps);
      OfKind(Front(ps), kind)
      + if last.info.kind == kind then [Slot(last.name, last.info.insertIndex, last.info.tensorNum)] else []
  }

  // The descriptors there are at first are those of the registered ports that
  // are not dynamic, and no name, numbered ones included, stands for two ports.
  ghost predicate Expandable(start: PortInfo, regIn: seq<string>, regOut: seq<string>, namesIn: seq<string>,
                             namesOut: seq<string>) {
    && PortsFit(start, InputPort, regIn) && PortsFit(start, OutputPort, regOut)
    && NoCollision(regIn, Nums(start)) && NoCollision(regOut, Nums(start))
    && namesIn == Statics(regIn, Nums(start)) && namesOut == Statics(regOut, Nums(start))
  }

  // The names are the registered ports in order, dynamic ones in full, exactly
  // when no empty dynamic port precedes one that has tensors.
  ghost predicate LaidOut(names: seq<string>, reg: seq<string>, dyn: Counts) {
    names == Expected(reg, dyn) <==> EmptyPortsLast(reg, dyn)
  }

  method AutoMappingByOpFnDynamic(op: OpDesc, table: seq<DynamicAttr>) returns (ghost ps: seq<Entry>)
    requires op.inputs != op.outputs && op.inputs.Valid() && op.outputs.Valid()
    modifies op.inputs, op.outputs
    ensures op.inputs.Valid() && op.outputs.Valid()
    ensures Sorted(ps) && EntriesOf(ps, old(Positions(op, table)), old(Positions(op, table)).Keys)
    ensures op.inputs.names == InsertAll(old(op.inputs.names), OfKind(ps, InputPort))
    ensures op.outputs.names == InsertAll(old(op.outputs.names), OfKind(ps, OutputPort))
    ensures Expandable(Collected(op.attrs, table), old(op.inputs.registered), old(op.outputs.registered),
                       old(op.inputs.names), old(op.outputs.names)) ==>
      var dyn := Nums(Collected(op.attrs, table));
      LaidOut(op.inputs.names, old(op.inputs.registered), dyn) &&
        LaidOut(op.outputs.names, old(op.outputs.registered), dyn)
  {
    ghost var regIn, regOut, namesIn, namesOut :=
      op.inputs.registered, op.outputs.registered, op.inputs.names, op.outputs.names;
    ghost var expandable := Expandable(Collected(op.attrs, table), regIn, regOut, namesIn, namesOut);
    hide LaidOut, Expandable;
    hide EntriesOf, Sorted, Indexed, OfKind, InsertAll, Collected, Assigned;
    var info := UpdateDynamicInputOutPutIndex(op, table);
    var entries := SortByIndex(info);
    ps := entries;
    InsertPorts(op, entries);
    if expandable {
      LaysOut(op.attrs, table, regIn, regOut, namesIn, namesOut, ps);
    }
  }

  method InsertPorts(op: OpDesc, entries: seq<Entry>)
    requires op.inputs != op.outputs && op.inputs.Valid() && op.outputs.Valid()
    modifies op.inputs, op.outputs
    ensures op.inputs.Valid() && op.outputs.Valid()
    ensures op.inputs.names == InsertAll(old(op.inputs.names), OfKind(entries, InputPort))
    ensures op.outputs.names == InsertAll(old(op.outputs.names), OfKind(entries, OutputPort))
  {
    hide InsertMiddle, Indexed, OfKind, WithPort, InsertAll;
    NothingInserted(op.inputs.names);
    NothingInserted(op.outputs.names);
    assert entries[..0] == [];
    for k := 0 to |entries|
      invariant op.inputs.Valid() && op.outputs.Valid()
      invariant op.inputs.names == InsertAll(old(op.inputs.names), OfKind(entries[..k], InputPort))
      invariant op.outputs.names == InsertAll(old(op.outputs.names), OfKind(entries[..k], OutputPort))
    {
      OneMore(old(op.inputs.names), entries[..k], entries[k], InputPort);
      OneMore(old(op.outputs.names), entries[..k], entries[k], OutputPort);
      assert entries[..k + 1] == entries[..k] + [entries[k]];
      InsertPort(op, entries[k]);
    }
    assert entries[..|entries|] == entries;
  }

  function WithPort(names: seq<string>, e: Entry, kind: DynamicType): seq<string> {
    if e.info.kind == kind && e.info.tensorNum != 0
    then InsertMiddle(names, e.name, e.info.tensorNum, e.info.insertIndex).names else names
  }

  // The result of the insertion is ignored.
  method InsertPort(op: OpDesc, e: Entry)
    requires op.inputs != op.outputs && op.inputs.Valid() && op.outputs.Valid()
    modifies op.inputs, op.outputs
    ensures op.inputs.Valid() && op.outputs.Valid()
    ensures op.inputs.names == WithPort(old(op.inputs.names), e, InputPort)
    ensures op.outputs.names == WithPort(old(op.outputs.names), e, OutputPort)
  {
    hide InsertMiddle, Indexed;
    if e.info.tensorNum == 0 {
      return;
    }
    var ok;
    if e.info.kind == InputPort {
      ok := op.inputs.AddDescMiddle(e.name, e.info.tensorNum, e.info.insertIndex);
    } else {
      ok := op.outputs.AddDescMiddle(e.name, e.info.tensorNum, e.info.insertIndex);
    }
  }

  lemma NothingInserted(names: seq<string>)
    ensures InsertAll(names, OfKind([], InputPort)) == names && InsertAll(names, OfKind([], OutputPort)) == names
  {
  }

  lemma OneMore(names: seq<string>, ps: seq<Entry>, e: Entry, kind: DynamicType)
    ensures InsertAll(names, OfKind(ps + [e], kind)) == WithPort(InsertAll(names, OfKind(ps, kind)), e, kind)
  {
    hide InsertMiddle;
    assert Front(ps + [e]) == ps;
    if e.info.kind == kind {
      var slot := Slot(e.name, e.info.insertIndex, e.info.tensorNum);
      assert Front(OfKind(ps, kind) + [slot]) == OfKind(ps, kind);
    } else {
      assert OfKind(ps, kind) + [] == OfKind(ps, kind);
    }
  }

  // -------------------------------------------------------------- layout

  // The ports of one kind are the dynamic ones among its registered names.
  ghost predicate PortsFit(info: PortInfo, kind: DynamicType, reg: seq<string>) {
    Distinct(reg) && forall p :: p in info ==> (info[p].kind == kind <==> p in reg)
  }

  lemma {:induction false} AssignedAt(info: PortInfo, reg: seq<string>, k: nat)
    requires Distinct(reg) && k < |reg| && reg[k] in info
    ensures reg[k] in Assigned(info, reg) && Assigned(info, reg)[reg[k]].insertIndex == InsertAt(reg[..k], Nums(info))
    decreases |reg|
  {
    AssignedKeeps(info, Front(reg));
    if k == |reg| - 1 {
      assert reg[..k] == Front(reg);
    } else {
      assert Front(reg)[..k] == reg[..k] && reg[k] == Front(reg)[k];
      AssignedAt(info, Front(reg), k);
    }
  }

  // Slots of the given names, in increasing position.
  ghost predicate Increasing(ss: seq<Slot>) {
    forall i, j :: 0 <= i < j < |ss| ==> ss[i].at < ss[j].at
  }

  lemma {:induction false} SlotsIncrease(reg: seq<string>, dyn: Counts)
    ensures Increasing(Slots(reg, dyn)) && forall s :: s in Slots(reg, dyn) ==> s.at < InsertAt(reg, dyn)
  {
    if reg != [] {
      SlotsIncrease(Front(reg), dyn);
      var front := Slots(Front(reg), dyn);
      assert forall i :: 0 <= i < |front| ==> front[i] in front;
    }
  }

  function SlotAt(reg: seq<string>, dyn: Counts, k: nat): Slot
    requires k < |reg| && reg[k] in dyn
  {
    Slot(reg[k], InsertAt(reg[..k], dyn), dyn[reg[k]])
  }

  lemma {:induction false} SlotsAre(reg: seq<string>, dyn: Counts)
    ensures forall k {:trigger reg[k]} :: 0 <= k < |reg| && reg[k] in dyn ==> SlotAt(reg, dyn, k) in Slots(reg, dyn)
    ensures forall s :: s in Slots(reg, dyn) ==> exists k :: 0 <= k < |reg| && reg[k] in dyn && s == SlotAt(reg, dyn, k)
  {
    if reg != [] {
      var front := Front(reg);
      SlotsAre(front, dyn);
      forall k: nat | k < |front| && reg[k] in dyn ensures SlotAt(reg, dyn, k) == SlotAt(front, dyn, k) {
        assert front[..k] == reg[..k];
      }
      assert reg[..|front|] == front;
      hide SlotAt, InsertAt;
      forall k | 0 <= k < |reg| && reg[k] in dyn ensures SlotAt(reg, dyn, k) in Slots(reg, dyn) {
        if k < |front| {
          assert front[k] == reg[k];
        } else {
          LastSlot(reg, dyn);
        }
      }
      forall s | s in Slots(reg, dyn) ensures exists k :: 0 <= k < |reg| && reg[k] in dyn && s == SlotAt(reg, dyn, k) {
        if s in Slots(front, dyn) {
          var k :| 0 <= k < |front| && front[k] in dyn && s == SlotAt(front, dyn, k);
          assert front[k] == reg[k];
        } else {
          LastSlot(reg, dyn);
        }
      }
    }
  }

  lemma LastSlot(reg: seq<string>, dyn: Counts)
    requires reg != []
    ensures Slots(reg, dyn) == Slots(Front(reg), dyn) + if Last(reg) in dyn then [SlotAt(reg, dyn, |reg| - 1)] else []
  {
  }

  lemma {:induction false} OfKindAre(ps: seq<Entry>, kind: DynamicType)
    ensures forall s :: s in OfKind(ps, kind) <==>
      exists e :: e in ps && e.info.kind == kind && s == Slot(e.name, e.info.insertIndex, e.info.tensorNum)
  {
    if ps != [] {
      FrontLast(ps);
      OfKindAre(Front(ps), kind);
    }
  }

  lemma HeadMember(a: seq<Slot>)
    ensures a == [] || a[0] in a
  {
  }

  lemma {:induction false} SameIncreasing(a: seq<Slot>, b: seq<Slot>)
    requires Increasing(a) && Increasing(b) && forall s :: s in a <==> s in b
    ensures a == b
  {
    if a == [] || b == [] {
      HeadMember(a);
      HeadMember(b);
    } else {
      var x, y := Last(a), Last(b);
      assert x in a && y in b;
      var i :| 0 <= i < |a| && a[i] == y;
      var j :| 0 <= j < |b| && b[j] == x;
      assert x == y;
      forall s | s in Front(a) ensures s in Front(b) {
        var k :| 0 <= k < |a| - 1 && a[k] == s;
        assert s in a && s.at < x.at;
      }
      forall s | s in Front(b) ensures s in Front(a) {
        var k :| 0 <= k < |b| - 1 && b[k] == s;
        assert s in b && s.at < x.at;
      }
      SameIncreasing(Front(a), Front(b));
    }
  }

  lemma EntriesIncrease(ps: seq<Entry>, kind: DynamicType, ss: seq<Slot>)
    requires Sorted(ps) && Increasing(ss) && (forall s :: s in OfKind(ps, kind) <==> s in ss)
    requires forall i, j :: 0 <= i < j < |ps| ==> ps[i].name != ps[j].name
    ensures Increasing(OfKind(ps, kind))
  {
    OfKindOrdered(ps, kind);
    var a := OfKind(ps, kind);
    forall i, j | 0 <= i < j < |a| ensures a[i].at < a[j].at {
      assert a[i] in ss && a[j] in ss;
      var x :| 0 <= x < |ss| && ss[x] == a[i];
      var y :| 0 <= y < |ss| && ss[y] == a[j];
      assert a[i].at <= a[j].at && a[i].name != a[j].name;
      assert y < x ==> ss[y].at < ss[x].at;
    }
  }

  ghost predicate Ordered(a: seq<Slot>) {
    forall i, j :: 0 <= i < j < |a| ==> a[i].at <= a[j].at && a[i].name != a[j].name
  }

  lemma {:induction false} OfKindOrdered(ps: seq<Entry>, kind: DynamicType)
    requires Sorted(ps) && forall i, j :: 0 <= i < j < |ps| ==> ps[i].name != ps[j].name
    ensures Ordered(OfKind(ps, kind))
  {
    if ps != [] {
      OfKindOrdered(Front(ps), kind);
      OfKindAre(Front(ps), kind);
      var front, last := OfKind(Front(ps), kind), Last(ps);
      forall i | 0 <= i < |front| ensures front[i].at <= last.info.insertIndex && front[i].name != last.name {
        assert front[i] in front;
        var e :| e in Front(ps) && e.info.kind == kind &&
          front[i] == Slot(e.name, e.info.insertIndex, e.info.tensorNum);
        var k :| 0 <= k < |ps| - 1 && ps[k] == e;
      }
      OrderedMore(front, Slot(last.name, last.info.insertIndex, last.info.tensorNum));
      assert front + [] == front;
    }
  }

  lemma OrderedMore(a: seq<Slot>, s: Slot)
    requires Ordered(a) && forall i :: 0 <= i < |a| ==> a[i].at <= s.at && a[i].name != s.name
    ensures Ordered(a + [s])
  {
  }

  // Sorting the entries puts the ports of a kind in their registered order.
  lemma SortedAsRegistered(info: PortInfo, kind: DynamicType, reg: seq<string>, ps: seq<Entry>)
    requires PortsFit(info, kind, reg) && Sorted(ps) && EntriesOf(ps, info, info.Keys)
    requires forall k :: 0 <= k < |reg| && reg[k] in info ==> info[reg[k]].insertIndex == InsertAt(reg[..k], Nums(info))
    ensures OfKind(ps, kind) == Slots(reg, Nums(info))
  {
    var dyn := Nums(info);
    SlotsAre(reg, dyn);
    SlotsIncrease(reg, dyn);
    OfKindAre(ps, kind);
    var a, b := OfKind(ps, kind), Slots(reg, dyn);
    forall s | s in a ensures s in b {
      var e :| e in ps && e.info.kind == kind && s == Slot(e.name, e.info.insertIndex, e.info.tensorNum);
      assert e.name in reg;
      var k :| 0 <= k < |reg| && reg[k] == e.name;
      assert s == SlotAt(reg, dyn, k);
    }
    forall s | s in b ensures s in a {
      var k :| 0 <= k < |reg| && reg[k] in dyn && s == SlotAt(reg, dyn, k);
      var e := Entry(reg[k], info[reg[k]]);
      assert e in ps && reg[k] in reg;
      assert s == Slot(e.name, e.info.insertIndex, e.info.tensorNum);
    }
    EntriesIncrease(ps, kind, b);
    SameIncreasing(a, b);
  }

  // After UpdateDynamicInputOutPutIndex each registered dynamic port has its
  // position, provided the name is not also registered on the other side.
  lemma PositionsAre(start: PortInfo, regIn: seq<string>, regOut: seq<string>)
    requires PortsFit(start, InputPort, regIn) && PortsFit(start, OutputPort, regOut)
    ensures var info := Assigned(Assigned(start, regIn), regOut);
      && info.Keys == start.Keys && Nums(info) == Nums(start)
      && PortsFit(info, InputPort, regIn) && PortsFit(info, OutputPort, regOut)
      && (forall k :: 0 <= k < |regIn| && regIn[k] in info ==>
           info[regIn[k]].insertIndex == InsertAt(regIn[..k], Nums(info)))
      && (forall k :: 0 <= k < |regOut| && regOut[k] in info ==>
           info[regOut[k]].insertIndex == InsertAt(regOut[..k], Nums(info)))
  {
    var mid := Assigned(start, regIn);
    var info := Assigned(mid, regOut);
    AssignedKeeps(start, regIn);
    AssignedKeeps(mid, regOut);
    assert forall p :: p in info ==> info[p].kind == mid[p].kind == start[p].kind;
    forall k | 0 <= k < |regIn| && regIn[k] in info
      ensures info[regIn[k]].insertIndex == InsertAt(regIn[..k], Nums(info))
    {
      AssignedAt(start, regIn, k);
      assert regIn[k] in regIn && regIn[k] !in regOut;
    }
    forall k | 0 <= k < |regOut| && regOut[k] in info
      ensures info[regOut[k]].insertIndex == InsertAt(regOut[..k], Nums(info))
    {
      AssignedAt(mid, regOut, k);
    }
  }

  // The whole expansion: for inputs and for outputs alike, dynamic ports that
  // contribute no descriptors at first end up as p0 .. p(n-1) in registered
  // order exactly when none without tensors precedes one with tensors.
  lemma DynamicLayout(start: PortInfo, regIn: seq<string>, regOut: seq<string>, ps: seq<Entry>)
    requires PortsFit(start, InputPort, regIn) && PortsFit(start, OutputPort, regOut)
    requires NoCollision(regIn, Nums(start)) && NoCollision(regOut, Nums(start))
    requires Sorted(ps)
    requires EntriesOf(ps, Assigned(Assigned(start, regIn), regOut), Assigned(Assigned(start, regIn), regOut).Keys)
    ensures var dyn := Nums(start);
      && (InsertAll(Statics(regIn, dyn), OfKind(ps, InputPort)) == Expected(regIn, dyn) <==> EmptyPortsLast(regIn, dyn))
      && (InsertAll(Statics(regOut, dyn), OfKind(ps, OutputPort)) == Expected(regOut, dyn) <==>
           EmptyPortsLast(regOut, dyn))
  {
    var info, dyn := Assigned(Assigned(start, regIn), regOut), Nums(start);
    PositionsAre(start, regIn, regOut);
    hide Assigned, Sorted, EntriesOf, PortsFit, NoCollision, InsertAll, Expected, Statics, EmptyPortsLast, Slots,
      OfKind, InsertAt;
    SortedAsRegistered(info, InputPort, regIn, ps);
    SortedAsRegistered(info, OutputPort, regOut, ps);
    LayoutIff(regIn, dyn);
    LayoutIff(regOut, dyn);
  }

  lemma LaysOut(attrs: map<string, nat>, table: seq<DynamicAttr>, regIn: seq<string>, regOut: seq<string>,
                namesIn: seq<string>, namesOut: seq<string>, ps: seq<Entry>)
    requires Expandable(Collected(attrs, table), regIn, regOut, namesIn, namesOut) && Sorted(ps)
    requires var info := Assigned(Assigned(Collected(attrs, table), regIn), regOut); EntriesOf(ps, info, info.Keys)
    ensures var dyn := Nums(Collected(attrs, table));
      && LaidOut(InsertAll(namesIn, OfKind(ps, InputPort)), regIn, dyn)
      && LaidOut(InsertAll(namesOut, OfKind(ps, OutputPort)), regOut, dyn)
  {
    hide Collected, Assigned, Sorted, EntriesOf, PortsFit, NoCollision, InsertAll, Expected, Statics, EmptyPortsLast,
      OfKind, Nums;
    DynamicLayout(Collected(attrs, table), regIn, regOut, ps);
  }
}
