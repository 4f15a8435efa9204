// Alias classes between a function operator and its subgraphs: the cells that
// denote the same tensor, and the table that answers lookups.
module RefRelations {
  import opened Links
  import opened RefPositions

  // -------------------------------------------------------------- the blocks

  function DataCells(ds: seq<Node>): seq<Port> {
    if ds == [] then [] else DataCells(Front(ds)) + [InData(Last(ds), 0), OutData(Last(ds), 0)]
  }

  function InBlock(f: Func, i: nat): seq<Port>
    requires i < |f.data|
  {
    [InData(f.root, i)] + DataCells(f.data[i])
  }

  function OutBlock(f: Func, i: nat): seq<Port>
    requires i < |f.nets|
  {
    [OutData(f.root, i)] + f.nets[i]
  }

  function LoopBlock(f: Func, i: nat): seq<Port>
    requires i < |f.data| && i < |f.nets|
  {
    [InData(f.root, i), OutData(f.root, i)] + DataCells(f.data[i]) + f.nets[i]
  }

  function InBlocks(f: Func): seq<seq<Port>> {
    seq(|f.data|, i requires 0 <= i < |f.data| => InBlock(f, i))
  }

  function OutBlocks(f: Func): seq<seq<Port>> {
    seq(|f.nets|, i requires 0 <= i < |f.nets| => OutBlock(f, i))
  }

  function BranchBlocks(f: Func): seq<seq<Port>> {
    InBlocks(f) + OutBlocks(f)
  }

  ghost predicate Fits(f: Func) {
    f.loop ==>
      && f.root.inputs <= |f.data| && f.root.inputs <= |f.nets|
      && forall k :: 0 <= k < |f.pairs| ==> f.pairs[k].0 < f.root.inputs && f.pairs[k].1 < f.root.inputs
  }

  function LoopBlocks(f: Func): (r: seq<seq<Port>>)
    requires f.root.inputs <= |f.data| && f.root.inputs <= |f.nets|
    ensures |r| == f.root.inputs
  {
    seq(f.root.inputs, i requires 0 <= i < f.root.inputs => LoopBlock(f, i))
  }

  // Joining position n into d and then the longer d into n.
  function Join<T>(refs: seq<seq<T>>, d: nat, n: nat): (r: seq<seq<T>>)
    requires d < |refs| && n < |refs|
    ensures |r| == |refs|
  {
    if d == n then refs else
    var first := refs[d := refs[d] + refs[n]];
    first[n := first[n] + first[d]]
  }

  function JoinAll<T>(refs: seq<seq<T>>, pairs: seq<(nat, nat)>): (r: seq<seq<T>>)
    requires forall k :: 0 <= k < |pairs| ==> pairs[k].0 < |refs| && pairs[k].1 < |refs|
    ensures |r| == |refs|
  {
    if pairs == [] then refs else
    var done := JoinAll(refs, Front(pairs));
    assert pairs[|pairs| - 1] == Last(pairs);
    Join(done, Last(pairs).0, Last(pairs).1)
  }

  ghost function BlocksOf(f: Func): seq<seq<Port>> {
    if !f.loop then BranchBlocks(f) else if Fits(f) then JoinAll(LoopBlocks(f), f.pairs) else []
  }

  ghost function AllBlocks(fs: seq<Func>): seq<seq<Port>> {
    if fs == [] then [] else AllBlocks(Front(fs)) + BlocksOf(Last(fs))
  }

  // The answer to a lookup: the last block that holds the cell.
  function LastWith(blocks: seq<seq<Port>>, c: Port): Option<seq<Port>> {
    if blocks == [] then None
    else if c in Last(blocks) then Some(Last(blocks))
    else LastWith(Front(blocks), c)
  }

  function Flatten<T>(vs: seq<seq<T>>): seq<T> {
    if vs == [] then [] else Flatten(Front(vs)) + Last(vs)
  }

  function LookUp(table: map<Port, seq<Port>>, key: Port): set<Port> {
    if key in table then set c | c in table[key] else {}
  }

  // table answers every lookup with the last block that holds the cell.
  ghost predicate TableFor(table: map<Port, seq<Port>>, blocks: seq<seq<Port>>) {
    && (forall c :: c in table ==> LastWith(blocks, c) == Some(table[c]))
    && (forall k, c :: 0 <= k < |blocks| && c in blocks[k] ==> c in table)
  }

  // What is entered so far is answered so; older entries belong to some block.
  ghost predicate Entered(table: map<Port, seq<Port>>, blocks: seq<seq<Port>>, all: seq<seq<Port>>) {
    && (forall k, c :: 0 <= k < |blocks| && c in blocks[k] ==> c in table)
    && (forall c :: c in table && LastWith(blocks, c).Some? ==> LastWith(blocks, c) == Some(table[c]))
    && (forall c :: c in table ==> LastWith(blocks, c).Some? || LastWith(all, c).Some?)
  }

  // ------------------------------------------------------------ the builder

  class RefRelations {
    var values: seq<seq<seq<Port>>>
    var table: map<Port, seq<Port>>

    // Every entry belongs to a block that is kept.
    ghost predicate Valid()
      reads this
    {
      forall c :: c in table ==> LastWith(Flatten(values), c).Some?
    }

    constructor ()
      ensures Valid() && values == [] && table == map[]
    {
      values, table := [], map[];
    }

    method Clear()
      modifies this
      ensures Valid() && values == [] && table == map[]
    {
      table := map[];
      values := [];
    }

    method BuildRefRelationsForBranch(f: Func) returns (refs: seq<seq<Port>>)
      ensures refs == BranchBlocks(f)
    {
      refs := [];
      for i := 0 to |f.data|
        invariant refs == InBlocks(f)[..i]
      {
        var block := AppendData([InData(f.root, i)], f.data[i]);
        refs := refs + [block];
      }
      for i := 0 to |f.nets|
        invariant refs == InBlocks(f) + OutBlocks(f)[..i]
      {
        var block, _ := AppendNets([OutData(f.root, i)], f.nets[i], None);
        refs := refs + [block];
        assert OutBlocks(f)[..i + 1] == OutBlocks(f)[..i] + [block];
        Associative(InBlocks(f), OutBlocks(f)[..i], [block]);
      }
    }

    method BuildRefRelationsForWhile(c: Scope, root: Node, data: seq<seq<Node>>, nets: seq<seq<Port>>)
      returns (refs: seq<seq<Port>>)
      requires IsLoop(root) && Fits(FuncWith(c, root, data, nets))
      ensures refs == BlocksOf(FuncWith(c, root, data, nets))
    {
      hide LoopBlocks, LoopBlock, DataCells, PairsOf;
      ghost var f := FuncWith(c, root, data, nets);
      var netoutput: Option<Node> := None;
      refs := [];
      for i := 0 to root.inputs
        invariant refs == LoopBlocks(f)[..i] && netoutput == LastNet(nets, i)
      {
        var block := AppendData([InData(root, i)] + [OutData(root, i)], data[i]);
        block, netoutput := AppendNets(block, nets[i], netoutput);
        LoopBlocksNext(f, i, block);
        refs := refs + [block];
      }
      assert LoopBlocks(f)[..root.inputs] == LoopBlocks(f);
      if netoutput.Some? {
        refs := JoinPairs(c, netoutput.value, refs);
      }
    }

    // Positions that the last NetOutput passes on unchanged are joined.
    method JoinPairs(c: Scope, net: Node, start: seq<seq<Port>>) returns (refs: seq<seq<Port>>)
      requires forall k :: 0 <= k < |PairsOf(c, net, net.inputs)| ==>
        PairsOf(c, net, net.inputs)[k].0 < |start| && PairsOf(c, net, net.inputs)[k].1 < |start|
      ensures refs == JoinAll(start, PairsOf(c, net, net.inputs))
    {
      refs := start;
      for i := 0 to net.inputs
        invariant PairsOf(c, net, i) <= PairsOf(c, net, net.inputs)
        invariant refs == JoinAll(start, PairsOf(c, net, i))
      {
        PairsGrow(c, net, i + 1, net.inputs);
        ghost var pairs := PairsOf(c, net, i);
        assert PairsOf(c, net, i + 1) == pairs + PairAt(c, net, i);
        var p := InData(net, i);
        var peers := At(c.links, p);
        if peers != [] && peers[0].OutData? && peers[0].node.kind == "Data" {
          var d := if peers[0].node in c.tags.data then c.tags.data[peers[0].node] else 0;
          var n := if p in c.tags.nets then c.tags.nets[p] else 0;
          assert PairAt(c, net, i) == [(d, n)];
          assert (pairs + [(d, n)])[|pairs|] == (d, n) && Front(pairs + [(d, n)]) == pairs;
          assert PairsOf(c, net, net.inputs)[|pairs|] == (d, n);
          if d != n {
            refs := refs[d := refs[d] + refs[n]];
            refs := refs[n := refs[n] + refs[d]];
          }
        } else {
          assert pairs + [] == pairs;
        }
      }
    }

    // The cells of the Data nodes, and then those of the NetOutputs, go behind
    // the cells of the operator itself.
    method AppendData(start: seq<Port>, ds: seq<Node>) returns (block: seq<Port>)
      ensures block == start + DataCells(ds)
    {
      block := start;
      for k := 0 to |ds|
        invariant block == start + DataCells(ds[..k])
      {
        assert Front(ds[..k + 1]) == ds[..k];
        block := block + [InData(ds[k], 0)] + [OutData(ds[k], 0)];
      }
      assert ds[..|ds|] == ds;
    }

    method AppendNets(start: seq<Port>, ns: seq<Port>, before: Option<Node>)
      returns (block: seq<Port>, netoutput: Option<Node>)
      ensures block == start + ns
      ensures netoutput == if ns == [] then before else Some(Last(ns).node)
    {
      block, netoutput := start, before;
      for k := 0 to |ns|
        invariant block == start + ns[..k]
        invariant netoutput == if k == 0 then before else Some(ns[k - 1].node)
      {
        block := block + [ns[k]];
        netoutput := Some(ns[k].node);
      }
    }

    method EnterBlock(block: seq<Port>, ghost blocks: seq<seq<Port>>, ghost all: seq<seq<Port>>)
      requires Entered(table, blocks, all)
      modifies this`table
      ensures Entered(table, blocks + [block], all)
    {
      ghost var start := table;
      for k := 0 to |block|
        invariant forall c :: c in table <==> c in start || c in block[..k]
        invariant forall c :: c in table ==> table[c] == if c in block[..k] then block else start[c]
      {
        table := table[block[k] := block];
      }
      assert block[..|block|] == block;
      TableStep(start, table, blocks, block, all);
    }

    method BuildLookUpTables()
      requires Valid()
      modifies this`table
      ensures Valid() && TableFor(table, Flatten(values))
    {
      ghost var all := Flatten(values);
      assert Entered(table, [], all);
      hide Entered, LastWith;
      for i := 0 to |values|
        invariant Entered(table, Flatten(values[..i]), all)
      {
        assert Front(values[..i + 1]) == values[..i];
        ghost var before := Flatten(values[..i]);
        assert before + values[i][..0] == before;
        for j := 0 to |values[i]|
          invariant Entered(table, before + values[i][..j], all)
        {
          EnterBlock(values[i][j], before + values[i][..j], all);
          assert before + values[i][..j] + [values[i][j]] == before + values[i][..j + 1];
        }
        assert values[i][..|values[i]|] == values[i];
      }
      assert values[..|values|] == values;
      EnteredAll(table, all);
    }

    method LookUpRefRelations(key: Port) returns (result: set<Port>)
      ensures result == LookUp(table, key)
    {
      result := {};
      if key in table {
        var cells := table[key];
        for k := 0 to |cells|
          invariant result == set c | c in cells[..k]
        {
          result := result + {cells[k]};
        }
        assert cells[..|cells|] == cells;
      }
    }

    // Collects and classifies the boundary of one operator and builds its blocks.
    method BlocksFor(c: Scope, n: Node) returns (ok: bool, refs: seq<seq<Port>>)
      requires Classifies(c, n) ==> Fits(FuncOf(c, n))
      ensures ok <==> Classifies(c, n)
      ensures ok ==> refs == BlocksOf(FuncOf(c, n))
    {
      refs := [];
      var dataNodes, netNodes := GetDataAndNetoutputOfSubGraph(c, n.subgraphs, IsLoop(n));
      var size := if |dataNodes| > MAX_ELEMENTS then |dataNodes| else MAX_ELEMENTS;
      var data, nets;
      ok, data := ProcessSubgraphDataNodes(c.tags, dataNodes, size);
      if !ok {
        return;
      }
      ok, nets := ProcessSubgraphNetoutput(c.tags, netNodes, size);
      if !ok {
        return;
      }
      if IsLoop(n) {
        refs := BuildRefRelationsForWhile(c, n, data, nets);
      } else {
        refs := BuildRefRelationsForBranch(FuncWith(c, n, data, nets));
      }
    }

    // Adds the blocks of every function operator to those that are kept, and
    // enters all of them.
    method BuildRefRelations(c: Scope, nodes: seq<Node>) returns (ok: bool)
      requires Valid() && forall n :: n in nodes && n.subgraphs != [] && Classifies(c, n) ==> Fits(FuncOf(c, n))
      modifies this
      ensures Valid()
      ensures ok <==> forall n :: n in nodes && n.subgraphs != [] ==> Classifies(c, n)
      ensures ok ==> Flatten(values) == old(Flatten(values)) + AllBlocks(FuncsOf(c, nodes))
      ensures ok ==> TableFor(table, Flatten(values))
      ensures !ok ==> table == old(table) && exists k :: StoppedAt(c, nodes, k, old(Flatten(values)), Flatten(values))
    {
      hide BlocksOf, AllBlocks, FuncsOf, TableFor, Fits, Classifies, LastWith, FuncOf;
      NoBlocks(c);
      ghost var kept := Flatten(values);
      for k := 0 to |nodes|
        invariant table == old(table) && Valid()
        invariant forall i :: 0 <= i < k && nodes[i].subgraphs != [] ==> Classifies(c, nodes[i])
        invariant Flatten(values) == kept + AllBlocks(FuncsOf(c, nodes[..k]))
      {
        BlocksNext(c, nodes, k, kept);
        if nodes[k].subgraphs != [] {
          assert nodes[k] in nodes;
          var refs;
          ok, refs := BlocksFor(c, nodes[k]);
          if !ok {
            assert StoppedAt(c, nodes, k, kept, Flatten(values));
            return;
          }
          if refs != [] {
            assert Front(values + [refs]) == values;
            StillCovered(table, Flatten(values), refs);
            values := values + [refs];
          }
        }
      }
      assert nodes[..|nodes|] == nodes;
      BuildLookUpTables();
      ok := true;
    }
  }

  // Node k is the first that cannot be classified; the blocks of the operators
  // ahead of it are kept.
  ghost predicate StoppedAt(c: Scope, nodes: seq<Node>, k: nat, before: seq<seq<Port>>, blocks: seq<seq<Port>>) {
    && k < |nodes| && nodes[k].subgraphs != [] && !Classifies(c, nodes[k])
    && (forall i :: 0 <= i < k && nodes[i].subgraphs != [] ==> Classifies(c, nodes[i]))
    && blocks == before + AllBlocks(FuncsOf(c, nodes[..k]))
  }

  lemma NoBlocks(c: Scope)
    ensures AllBlocks(FuncsOf(c, [])) == []
  {
  }

  lemma BlocksNext(c: Scope, nodes: seq<Node>, k: nat, kept: seq<seq<Port>>)
    requires k < |nodes|
    ensures var next := if nodes[k].subgraphs != [] then BlocksOf(FuncOf(c, nodes[k])) else [];
      kept + AllBlocks(FuncsOf(c, nodes[..k + 1])) == kept + AllBlocks(FuncsOf(c, nodes[..k])) + next
  {
    hide BlocksOf, FuncOf, AllBlocks;
    assert Front(nodes[..k + 1]) == nodes[..k];
    var fs := FuncsOf(c, nodes[..k]);
    hide FuncsOf;
    if nodes[k].subgraphs != [] {
      assert FuncsOf(c, nodes[..k + 1]) == fs + [FuncOf(c, nodes[k])];
      AllBlocksNext(fs, FuncOf(c, nodes[k]));
      Associative(kept, AllBlocks(fs), BlocksOf(FuncOf(c, nodes[k])));
    } else {
      assert FuncsOf(c, nodes[..k + 1]) == fs + [] == fs;
      assert kept + AllBlocks(fs) + [] == kept + AllBlocks(fs);
    }
  }

  lemma AllBlocksNext(fs: seq<Func>, f: Func)
    ensures AllBlocks(fs + [f]) == AllBlocks(fs) + BlocksOf(f)
  {
    hide BlocksOf;
    assert Front(fs + [f]) == fs;
  }

  lemma StillCovered(table: map<Port, seq<Port>>, blocks: seq<seq<Port>>, more: seq<seq<Port>>)
    requires forall c :: c in table ==> LastWith(blocks, c).Some?
    ensures forall c :: c in table ==> LastWith(blocks + more, c).Some?
  {
    hide LastWith;
    forall c | c in table ensures LastWith(blocks + more, c).Some? {
      var k := LastWithIs(blocks, c);
      assert (blocks + more)[k] == blocks[k];
      LastWithSome(blocks + more, k, c);
    }
  }

  lemma TableStep(start: map<Port, seq<Port>>, table: map<Port, seq<Port>>, blocks: seq<seq<Port>>, block: seq<Port>,
                  all: seq<seq<Port>>)
    requires Entered(start, blocks, all)
    requires forall c :: c in table <==> c in start || c in block
    requires forall c :: c in table ==> table[c] == if c in block then block else start[c]
    ensures Entered(table, blocks + [block], all)
  {
    assert Front(blocks + [block]) == blocks;
  }

  lemma EnteredAll(table: map<Port, seq<Port>>, blocks: seq<seq<Port>>)
    requires Entered(table, blocks, blocks)
    ensures TableFor(table, blocks)
    ensures forall c :: c in table ==> LastWith(blocks, c).Some?
  {
  }

  lemma LoopBlocksNext(f: Func, i: nat, block: seq<Port>)
    requires i < f.root.inputs <= |f.data| && f.root.inputs <= |f.nets|
    requires block == [InData(f.root, i)] + [OutData(f.root, i)] + DataCells(f.data[i]) + f.nets[i]
    ensures |LoopBlocks(f)| == f.root.inputs && LoopBlocks(f)[..i + 1] == LoopBlocks(f)[..i] + [block]
  {
    assert LoopBlocks(f)[i] == block by { hide DataCells; }
  }

  lemma {:induction false} PairsGrow(c: Scope, n: Node, i: nat, k: nat)
    requires i <= k
    ensures PairsOf(c, n, i) <= PairsOf(c, n, k)
  {
    if i < k {
      PairsGrow(c, n, i, k - 1);
    }
  }

  // ------------------------------------------------------------- lookups

  lemma {:induction false} LastWithIs(blocks: seq<seq<Port>>, c: Port) returns (k: nat)
    requires LastWith(blocks, c).Some?
    ensures k < |blocks| && c in blocks[k] && LastWith(blocks, c) == Some(blocks[k])
    ensures forall j :: k < j < |blocks| ==> c !in blocks[j]
  {
    if c in Last(blocks) {
      k := |blocks| - 1;
    } else {
      k := LastWithIs(Front(blocks), c);
    }
  }

  lemma {:induction false} LastWithSome(blocks: seq<seq<Port>>, k: nat, c: Port)
    requires k < |blocks| && c in blocks[k]
    ensures LastWith(blocks, c).Some?
  {
    if c !in Last(blocks) {
      LastWithSome(Front(blocks), k, c);
    }
  }

  // A lookup that finds anything finds the cell itself: the reflexivity on
  // which format propagation relies.
  ghost predicate Reflexive(table: map<Port, seq<Port>>) {
    forall c :: c in table ==> c in table[c]
  }

  lemma TableReflexive(table: map<Port, seq<Port>>, blocks: seq<seq<Port>>)
    requires TableFor(table, blocks)
    ensures Reflexive(table)
  {
    forall c | c in table ensures c in table[c] {
      var k := LastWithIs(blocks, c);
    }
  }

  // Distinct blocks share no cell.
  ghost predicate Apart(blocks: seq<seq<Port>>) {
    forall i, j, c :: 0 <= i < |blocks| && 0 <= j < |blocks| && c in blocks[i] && c in blocks[j] ==> i == j
  }

  // On blocks that are apart the lookup is the partition: it answers with the
  // one block a cell is in.
  lemma PartitionLookup(blocks: seq<seq<Port>>, k: nat, c: Port)
    requires Apart(blocks) && k < |blocks| && c in blocks[k]
    ensures LastWith(blocks, c) == Some(blocks[k])
  {
    LastWithSome(blocks, k, c);
    var j := LastWithIs(blocks, c);
  }

  lemma {:induction false} LookupInFirst(a: seq<seq<Port>>, b: seq<seq<Port>>, c: Port)
    requires forall j :: 0 <= j < |b| ==> c !in b[j]
    ensures LastWith(a + b, c) == LastWith(a, c)
  {
    if b == [] {
      assert a + b == a;
    } else {
      assert Front(a + b) == a + Front(b);
      LookupInFirst(a, Front(b), c);
    }
  }

  lemma {:induction false} LookupInSecond(a: seq<seq<Port>>, b: seq<seq<Port>>, k: nat, c: Port)
    requires k < |b| && c in b[k]
    ensures LastWith(a + b, c) == LastWith(b, c)
  {
    assert Front(a + b) == a + Front(b);
    if c !in Last(b) {
      LookupInSecond(a, Front(b), k, c);
    }
  }

  // --------------------------------------------- each subgraph has one owner

  ghost function NodesOf(f: Func): set<Node> {
    {f.root}
    + (set i, n | 0 <= i < |f.data| && n in f.data[i] :: n)
    + (set i, p | 0 <= i < |f.nets| && p in f.nets[i] :: p.node)
  }

  // The root is none of the nodes of its subgraphs, a Data node stands at one
  // position, and so does an input of a NetOutput.
  ghost predicate WellOwned(f: Func) {
    && Fits(f)
    && (forall i, n :: 0 <= i < |f.data| && n in f.data[i] ==> n != f.root)
    && (forall i, p :: 0 <= i < |f.nets| && p in f.nets[i] ==> p.InData? && p.node != f.root)
    && (forall i, j, n :: 0 <= i < |f.data| && 0 <= j < |f.data| && n in f.data[i] && n in f.data[j] ==> i == j)
    && (forall i, j, p :: 0 <= i < |f.nets| && 0 <= j < |f.nets| && p in f.nets[i] && p in f.nets[j] ==> i == j)
    && (forall i, j, p :: 0 <= i < |f.nets| && p in f.nets[i] && 0 <= j < |f.data| ==> p.node !in f.data[j])
  }

  // No node belongs to two function operators.
  ghost predicate OneOwner(fs: seq<Func>) {
    && (forall k :: 0 <= k < |fs| ==> WellOwned(fs[k]))
    && (forall i, j :: 0 <= i < j < |fs| ==> NodesOf(fs[i]) !! NodesOf(fs[j]))
  }

  lemma {:induction false} DataCellsAre(ds: seq<Node>)
    ensures forall c: Port {:trigger c in DataCells(ds)} :: c in DataCells(ds) <==>
      (c.InData? || c.OutData?) && c.idx == 0 && c.node in ds
  {
    if ds != [] {
      FrontLast(ds);
      DataCellsAre(Front(ds));
      forall c: Port | (c.InData? || c.OutData?) && c.idx == 0 && c.node in ds ensures c in DataCells(ds) {
        assert c.node in Front(ds) || c.node == Last(ds);
        assert c == InData(c.node, 0) || c == OutData(c.node, 0);
      }
    }
  }

  ghost predicate DataCell(f: Func, i: nat, c: Port)
    requires i < |f.data|
  {
    (c.InData? || c.OutData?) && c.idx == 0 && c.node in f.data[i]
  }

  lemma BranchBlockAt(f: Func, i: nat, c: Port)
    requires i < |BranchBlocks(f)| && c in BranchBlocks(f)[i]
    ensures i < |f.data| ==> c == InData(f.root, i) || DataCell(f, i, c)
    ensures i >= |f.data| ==> c == OutData(f.root, i - |f.data|) || c in f.nets[i - |f.data|]
  {
    if i < |f.data| {
      assert BranchBlocks(f)[i] == InBlock(f, i);
      DataCellsAre(f.data[i]);
    } else {
      assert BranchBlocks(f)[i] == OutBlock(f, i - |f.data|);
    }
  }

  // Branch positions never overlap.
  lemma BranchApart(f: Func)
    requires WellOwned(f) && !f.loop
    ensures Apart(BranchBlocks(f))
  {
    var blocks := BranchBlocks(f);
    forall i, j, c | 0 <= i < |blocks| && 0 <= j < |blocks| && c in blocks[i] && c in blocks[j] ensures i == j {
      BranchBlockAt(f, i, c);
      BranchBlockAt(f, j, c);
    }
  }

  lemma LoopBlockAt(f: Func, i: nat, c: Port)
    requires Fits(f) && f.loop && i < f.root.inputs && c in LoopBlocks(f)[i]
    ensures c == InData(f.root, i) || c == OutData(f.root, i) || DataCell(f, i, c) || c in f.nets[i]
  {
    DataCellsAre(f.data[i]);
  }

  // Neither do the positions of a loop before they are joined.
  lemma LoopApart(f: Func)
    requires WellOwned(f) && f.loop
    ensures Apart(LoopBlocks(f))
  {
    var blocks := LoopBlocks(f);
    forall i, j, c | 0 <= i < |blocks| && 0 <= j < |blocks| && c in blocks[i] && c in blocks[j] ensures i == j {
      LoopBlockAt(f, i, c);
      LoopBlockAt(f, j, c);
    }
  }

  // A cell of one operator is answered from that operator's blocks alone.
  lemma {:induction false} LookupOfOwner(fs: seq<Func>, k: nat, i: nat, c: Port)
    requires OneOwner(fs) && k < |fs| && i < |BlocksOf(fs[k])| && c in BlocksOf(fs[k])[i]
    ensures LastWith(AllBlocks(fs), c) == LastWith(BlocksOf(fs[k]), c)
  {
    hide BlocksOf, LastWith, WellOwned, NodesOf;
    var rest := Front(fs);
    BlocksOwned(fs[k], i, c);
    if k == |fs| - 1 {
      LookupInSecond(AllBlocks(rest), BlocksOf(fs[k]), i, c);
    } else {
      forall j | 0 <= j < |BlocksOf(Last(fs))| ensures c !in BlocksOf(Last(fs))[j] {
        if c in BlocksOf(Last(fs))[j] {
          BlocksOwned(Last(fs), j, c);
        }
      }
      LookupInFirst(AllBlocks(rest), BlocksOf(Last(fs)), c);
      assert rest[k] == fs[k];
      LookupOfOwner(rest, k, i, c);
    }
  }

  lemma BlocksOwned(f: Func, i: nat, c: Port)
    requires WellOwned(f) && i < |BlocksOf(f)| && c in BlocksOf(f)[i]
    ensures c.node in NodesOf(f)
  {
    if f.loop {
      var j := JoinedFrom(LoopBlocks(f), f.pairs, i, c);
      LoopBlockAt(f, j, c);
    } else {
      BranchBlockAt(f, i, c);
    }
  }

  // Joining invents no cell.
  lemma {:induction false} JoinedFrom<T>(refs: seq<seq<T>>, pairs: seq<(nat, nat)>, i: nat, c: T) returns (j: nat)
    requires forall k :: 0 <= k < |pairs| ==> pairs[k].0 < |refs| && pairs[k].1 < |refs|
    requires i < |refs| && c in JoinAll(refs, pairs)[i]
    ensures j < |refs| && c in refs[j]
  {
    if pairs == [] {
      j := i;
    } else {
      var done := JoinAll(refs, Front(pairs));
      assert pairs[|pairs| - 1] == Last(pairs);
      var d, n := Last(pairs).0, Last(pairs).1;
      var at := if c in done[i] then i else if c in done[d] then d else n;
      j := JoinedFrom(refs, Front(pairs), at, c);
    }
  }

  // Branch operators: a cell and exactly the cells of its own position.
  lemma BranchLookup(fs: seq<Func>, k: nat, i: nat, c: Port)
    requires OneOwner(fs) && k < |fs| && !fs[k].loop && i < |BranchBlocks(fs[k])| && c in BranchBlocks(fs[k])[i]
    ensures LastWith(AllBlocks(fs), c) == Some(BranchBlocks(fs[k])[i])
  {
    LookupOfOwner(fs, k, i, c);
    BranchApart(fs[k]);
    PartitionLookup(BranchBlocks(fs[k]), i, c);
  }

  // ------------------------------------------------- graphs with subgraphs

  // Every subgraph belongs to one operator, and an operator is neither inside
  // its own subgraphs nor part of a boundary.
  ghost predicate Nested(c: Scope, nodes: seq<Node>) {
    && Distinct(nodes)
    && (forall n :: n in nodes && n.subgraphs != [] ==>
          n.kind != "Data" && n.kind != "NetOutput" && !InSubgraph(c, n.subgraphs, n) && Fits(FuncOf(c, n)))
    && (forall i, j, k, s {:trigger c.subgraphs[s][k], nodes[i], nodes[j]} ::
          (0 <= i < |nodes| && 0 <= j < |nodes| && i != j && s in nodes[i].subgraphs && s in c.subgraphs
           && 0 <= k < |c.subgraphs[s]|) ==> !InSubgraph(c, nodes[j].subgraphs, c.subgraphs[s][k]))
  }

  lemma {:induction false} FuncsAt(c: Scope, nodes: seq<Node>, k: nat) returns (i: nat)
    requires k < |FuncsOf(c, nodes)|
    ensures i < |nodes| && nodes[i].subgraphs != [] && FuncsOf(c, nodes)[k] == FuncOf(c, nodes[i])
  {
    if k < |FuncsOf(c, Front(nodes))| {
      i := FuncsAt(c, Front(nodes), k);
    } else {
      i := |nodes| - 1;
    }
  }

  lemma {:induction false} FuncsDistinct(c: Scope, nodes: seq<Node>, j: nat, k: nat)
    requires Distinct(nodes) && j < k < |FuncsOf(c, nodes)|
    ensures FuncsOf(c, nodes)[j].root != FuncsOf(c, nodes)[k].root
  {
    if k < |FuncsOf(c, Front(nodes))| {
      FuncsDistinct(c, Front(nodes), j, k);
    } else {
      var i := FuncsAt(c, Front(nodes), j);
    }
  }

  lemma NestedOwns(c: Scope, nodes: seq<Node>, n: Node)
    requires Nested(c, nodes) && n in nodes && n.subgraphs != []
    ensures WellOwned(FuncOf(c, n))
  {
    hide InSubgraph, FuncOf, Fits;
    FuncBoundary(c, n);
    RootOf(c, n);
    var f := FuncOf(c, n);
    forall i, d | 0 <= i < |f.data| && d in f.data[i]
      ensures d != f.root && d.kind == "Data" && d in c.tags.data && c.tags.data[d] == i
    {
    }
    forall i, p | 0 <= i < |f.nets| && p in f.nets[i]
      ensures p.InData? && p.node != f.root && p.node.kind == "NetOutput" && p in c.tags.nets && c.tags.nets[p] == i
    {
    }
    forall i, j, d | 0 <= i < |f.data| && 0 <= j < |f.data| && d in f.data[i] && d in f.data[j] ensures i == j {
      assert c.tags.data[d] == i && c.tags.data[d] == j;
    }
    forall i, j, p | 0 <= i < |f.nets| && 0 <= j < |f.nets| && p in f.nets[i] && p in f.nets[j] ensures i == j {
      assert c.tags.nets[p] == i && c.tags.nets[p] == j;
    }
  }

  lemma RootOf(c: Scope, n: Node)
    ensures FuncOf(c, n).root == n && FuncOf(c, n).loop == IsLoop(n)
  {
  }

  lemma NestedApart(c: Scope, nodes: seq<Node>, i: nat, j: nat, x: Node)
    requires Nested(c, nodes) && i < |nodes| && j < |nodes| && i != j
    requires nodes[i].subgraphs != [] && nodes[j].subgraphs != []
    requires x in NodesOf(FuncOf(c, nodes[i]))
    ensures x !in NodesOf(FuncOf(c, nodes[j]))
  {
    var m, n := nodes[i], nodes[j];
    assert m in nodes && n in nodes && m != n;
    hide FuncOf, Fits;
    BoundaryNode(c, m, x);
    BoundaryNode(c, n, x);
    if InSubgraph(c, m.subgraphs, x) {
      var s :| s in m.subgraphs && s in c.subgraphs && x in c.subgraphs[s];
      var k :| 0 <= k < |c.subgraphs[s]| && c.subgraphs[s][k] == x;
      assert !InSubgraph(c, nodes[j].subgraphs, c.subgraphs[s][k]);
    }
  }

  lemma BoundaryNode(c: Scope, n: Node, x: Node)
    ensures x in NodesOf(FuncOf(c, n)) ==>
      x == n || (InSubgraph(c, n.subgraphs, x) && (x.kind == "Data" || x.kind == "NetOutput"))
  {
    hide InSubgraph, FuncOf;
    FuncBoundary(c, n);
    RootOf(c, n);
  }

  // So no node belongs to two function operators.
  lemma NestedOneOwner(c: Scope, nodes: seq<Node>)
    requires Nested(c, nodes)
    ensures OneOwner(FuncsOf(c, nodes))
  {
    hide WellOwned, NodesOf, FuncOf, Nested;
    var fs := FuncsOf(c, nodes);
    forall k | 0 <= k < |fs| ensures WellOwned(fs[k]) {
      var i := FuncsAt(c, nodes, k);
      NestedOwns(c, nodes, nodes[i]);
    }
    forall j, k | 0 <= j < k < |fs| ensures NodesOf(fs[j]) !! NodesOf(fs[k]) {
      NestedDistinct(c, nodes);
      FuncsDistinct(c, nodes, j, k);
      var x := FuncsAt(c, nodes, j);
      var y := FuncsAt(c, nodes, k);
      RootOf(c, nodes[x]);
      RootOf(c, nodes[y]);
      forall n | n in NodesOf(fs[j]) ensures n !in NodesOf(fs[k]) {
        NestedApart(c, nodes, x, y, n);
      }
    }
  }

  lemma NestedDistinct(c: Scope, nodes: seq<Node>)
    requires Nested(c, nodes)
    ensures Distinct(nodes)
  {
  }

  // In such a graph the table built from empty answers for a branch operator
  // with exactly the cells of the position.
  lemma BranchTable(c: Scope, nodes: seq<Node>, table: map<Port, seq<Port>>, k: nat, i: nat, p: Port)
    requires Nested(c, nodes) && TableFor(table, AllBlocks(FuncsOf(c, nodes))) && k < |FuncsOf(c, nodes)|
    requires var f := FuncsOf(c, nodes)[k]; !f.loop && i < |BranchBlocks(f)| && p in BranchBlocks(f)[i]
    ensures LookUp(table, p) == set q | q in BranchBlocks(FuncsOf(c, nodes)[k])[i]
  {
    var fs := FuncsOf(c, nodes);
    NestedOneOwner(c, nodes);
    hide Nested, OneOwner, BranchBlocks, FuncsOf, AllBlocks;
    BranchLookup(fs, k, i, p);
    var j := LastWithIs(AllBlocks(fs), p);
  }

  // ------------------------------------------------------------ loops

  function Positions(n: nat): (r: seq<seq<nat>>)
    ensures |r| == n
  {
    if n == 0 then [] else Positions(n - 1) + [[n - 1]]
  }

  lemma {:induction false} PositionAt(n: nat, i: nat)
    requires i < n
    ensures Positions(n)[i] == [i]
  {
    if i < n - 1 {
      PositionAt(n - 1, i);
    }
  }

  // The positions that have found their way into each position.
  ghost function Absorbed(n: nat, pairs: seq<(nat, nat)>): (r: seq<seq<nat>>)
    requires forall k :: 0 <= k < |pairs| ==> pairs[k].0 < n && pairs[k].1 < n
    ensures |r| == n
  {
    JoinAll(Positions(n), pairs)
  }

  ghost predicate Spans(blocks: seq<seq<Port>>, block: seq<Port>, at: seq<nat>) {
    && (forall j :: j in at ==> j < |blocks|)
    && (forall c :: c in block ==> exists j :: j in at && c in blocks[j])
    && (forall j, c :: j in at && c in blocks[j] ==> c in block)
  }

  lemma SpansJoin(blocks: seq<seq<Port>>, a: seq<Port>, b: seq<Port>, p: seq<nat>, q: seq<nat>)
    requires Spans(blocks, a, p) && Spans(blocks, b, q)
    ensures Spans(blocks, a + b, p + q)
  {
    forall c | c in a + b ensures exists j :: j in p + q && c in blocks[j] {
      if c in a {
        var j :| j in p && c in blocks[j];
        assert j in p + q;
      } else {
        var j :| j in q && c in blocks[j];
        assert j in p + q;
      }
    }
  }

  // A joined block holds the cells of exactly the positions it absorbed.
  lemma {:induction false} JoinedSpans(blocks: seq<seq<Port>>, pairs: seq<(nat, nat)>, i: nat)
    requires forall k :: 0 <= k < |pairs| ==> pairs[k].0 < |blocks| && pairs[k].1 < |blocks|
    requires i < |blocks|
    ensures Spans(blocks, JoinAll(blocks, pairs)[i], Absorbed(|blocks|, pairs)[i])
  {
    if pairs == [] {
      PositionAt(|blocks|, i);
    } else {
      var done, at := JoinAll(blocks, Front(pairs)), Absorbed(|blocks|, Front(pairs));
      assert pairs[|pairs| - 1] == Last(pairs);
      var d, n := Last(pairs).0, Last(pairs).1;
      JoinedSpans(blocks, Front(pairs), i);
      if d != n && (i == d || i == n) {
        JoinedSpans(blocks, Front(pairs), d);
        JoinedSpans(blocks, Front(pairs), n);
        hide Spans;
        SpansJoin(blocks, done[d], done[n], at[d], at[n]);
        SpansJoin(blocks, done[n], done[d] + done[n], at[n], at[d] + at[n]);
      }
    }
  }

  ghost function Range(n: nat): (r: set<nat>)
    ensures forall i: nat :: i in r <==> i < n
  {
    if n == 0 then {} else Range(n - 1) + {n - 1}
  }

  // X contains, with one position of a pair, the other.
  ghost predicate ClosedUnder(pairs: seq<(nat, nat)>, X: set<nat>) {
    forall k :: 0 <= k < |pairs| ==> (pairs[k].0 in X <==> pairs[k].1 in X)
  }

  // X is a class of the equivalence that the pairs generate on positions.
  ghost predicate Component(n: nat, pairs: seq<(nat, nat)>, X: set<nat>) {
    && X != {} && (forall i :: i in X ==> i < n) && ClosedUnder(pairs, X)
    && forall Y :: ClosedUnder(pairs, Y) && X * Y != {} ==> X <= Y
  }

  lemma {:induction false} AbsorbedWithin(n: nat, pairs: seq<(nat, nat)>, X: set<nat>, i: nat)
    requires forall k :: 0 <= k < |pairs| ==> pairs[k].0 < n && pairs[k].1 < n
    requires ClosedUnder(pairs, X) && i < n
    ensures forall j :: j in Absorbed(n, pairs)[i] ==> j < n && (j in X <==> i in X)
    ensures i in Absorbed(n, pairs)[i]
  {
    if pairs == [] {
      PositionAt(n, i);
    } else {
      var front := Front(pairs);
      assert pairs[|pairs| - 1] == Last(pairs);
      forall k | 0 <= k < |front| ensures (front[k].0 in X <==> front[k].1 in X) {
        assert front[k] == pairs[k];
      }
      AbsorbedWithin(n, front, X, i);
      AbsorbedWithin(n, front, X, Last(pairs).0);
      AbsorbedWithin(n, front, X, Last(pairs).1);
    }
  }

  // Lookup of a cell of a loop finds the cell, and only cells of positions that
  // the pairs identify with the cell's own.
  lemma LoopLookup(f: Func, X: set<nat>, i: nat, c: Port) returns (k: nat)
    requires WellOwned(f) && f.loop && ClosedUnder(f.pairs, X) && i in X && i < f.root.inputs && c in LoopBlocks(f)[i]
    ensures k in X && k < f.root.inputs && LastWith(BlocksOf(f), c) == Some(BlocksOf(f)[k]) && c in BlocksOf(f)[k]
    ensures Spans(LoopBlocks(f), BlocksOf(f)[k], Absorbed(f.root.inputs, f.pairs)[k])
    ensures forall j :: j in Absorbed(f.root.inputs, f.pairs)[k] ==> j in X
    ensures forall j :: k < j < f.root.inputs ==> c !in BlocksOf(f)[j]
  {
    var n := f.root.inputs;
    AbsorbedWithin(n, f.pairs, X, i);
    JoinedSpans(LoopBlocks(f), f.pairs, i);
    LastWithSome(BlocksOf(f), i, c);
    k := LastWithIs(BlocksOf(f), c);
    JoinedSpans(LoopBlocks(f), f.pairs, k);
    LoopApart(f);
    var j :| j in Absorbed(n, f.pairs)[k] && c in LoopBlocks(f)[j];
    assert j == i;
    AbsorbedWithin(n, f.pairs, X, k);
  }

  ghost predicate Covers(f: Func, X: set<nat>, cells: seq<Port>)
    requires Fits(f) && f.loop
  {
    forall j, c :: j in X && j < f.root.inputs && c in LoopBlocks(f)[j] ==> c in cells
  }

  ghost predicate FindsAll(f: Func, X: set<nat>, c: Port)
    requires Fits(f) && f.loop
  {
    var found := LastWith(BlocksOf(f), c);
    found.Some? && Covers(f, X, found.value)
  }

  // ------------------------------------------------- what a position absorbs

  predicate Joins(p: (nat, nat), a: nat, b: nat) {
    p == (a, b) || p == (b, a)
  }

  ghost predicate Climb(pairs: seq<(nat, nat)>, xs: seq<nat>, ks: seq<nat>, i: nat)
    requires |xs| == |ks| + 1 && i < |ks|
  {
    ks[i] < |pairs| && Joins(pairs[ks[i]], xs[i], xs[i + 1])
  }

  // A chain of positions along pairs that stand later and later in the list.
  ghost predicate Climbs(pairs: seq<(nat, nat)>, xs: seq<nat>, ks: seq<nat>) {
    && |xs| == |ks| + 1
    && (forall i :: 0 <= i < |ks| ==> Climb(pairs, xs, ks, i))
    && (forall i, j :: 0 <= i < j < |ks| ==> ks[i] < ks[j])
  }

  ghost predicate ClimbsTo(pairs: seq<(nat, nat)>, a: nat, b: nat) {
    exists xs: seq<nat>, ks: seq<nat> :: Climbs(pairs, xs, ks) && xs[0] == a && Last(xs) == b
  }

  lemma ClimbsLonger(pairs: seq<(nat, nat)>, p: (nat, nat), a: nat, b: nat)
    requires ClimbsTo(pairs, a, b)
    ensures ClimbsTo(pairs + [p], a, b)
  {
    var xs: seq<nat>, ks: seq<nat> :| Climbs(pairs, xs, ks) && xs[0] == a && Last(xs) == b;
    forall i | 0 <= i < |ks| ensures Climb(pairs + [p], xs, ks, i) {
      assert Climb(pairs, xs, ks, i);
    }
    assert Climbs(pairs + [p], xs, ks);
  }

  lemma ClimbsFurther(pairs: seq<(nat, nat)>, p: (nat, nat), a: nat, b: nat, c: nat)
    requires ClimbsTo(pairs, a, b) && Joins(p, b, c)
    ensures ClimbsTo(pairs + [p], a, c)
  {
    var xs: seq<nat>, ks: seq<nat> :| Climbs(pairs, xs, ks) && xs[0] == a && Last(xs) == b;
    var ys: seq<nat>, js: seq<nat> := xs + [c], ks + [|pairs|];
    forall i | 0 <= i < |js| ensures Climb(pairs + [p], ys, js, i) {
      if i < |ks| {
        assert Climb(pairs, xs, ks, i);
      }
    }
    forall i, j | 0 <= i < j < |js| ensures js[i] < js[j] {
      assert Climb(pairs, xs, ks, i);
    }
    assert Climbs(pairs + [p], ys, js);
  }

  // A chain either leaves the last pair alone or ends with it.
  lemma ClimbsSplit(pairs: seq<(nat, nat)>, p: (nat, nat), a: nat, b: nat) returns (c: nat)
    requires ClimbsTo(pairs + [p], a, b)
    ensures ClimbsTo(pairs, a, c) && (c == b || Joins(p, c, b))
  {
    var all := pairs + [p];
    var xs: seq<nat>, ks: seq<nat> :| Climbs(all, xs, ks) && xs[0] == a && Last(xs) == b;
    if ks != [] && Last(ks) == |pairs| {
      var ys: seq<nat>, js: seq<nat> := Front(xs), Front(ks);
      forall i | 0 <= i < |js| ensures Climb(pairs, ys, js, i) {
        assert Climb(all, xs, ks, i) && ks[i] < ks[|ks| - 1];
      }
      assert Climb(all, xs, ks, |ks| - 1);
      assert Climbs(pairs, ys, js);
      c := Last(ys);
    } else {
      forall i | 0 <= i < |ks| ensures Climb(pairs, xs, ks, i) {
        assert Climb(all, xs, ks, i) && Climb(all, xs, ks, |ks| - 1);
        assert i < |ks| - 1 ==> ks[i] < ks[|ks| - 1];
      }
      assert Climbs(pairs, xs, ks);
      c := b;
    }
  }

  // Position m has absorbed j exactly when some chain climbs from j to m.
  lemma {:induction false} AbsorbedIff(n: nat, pairs: seq<(nat, nat)>, m: nat, j: nat)
    requires forall k :: 0 <= k < |pairs| ==> pairs[k].0 < n && pairs[k].1 < n
    requires m < n
    ensures j in Absorbed(n, pairs)[m] <==> ClimbsTo(pairs, j, m)
  {
    hide ClimbsTo;
    if pairs == [] {
      PositionAt(n, m);
      ClimbsNowhere(j, m);
    } else {
      var front, p := Front(pairs), Last(pairs);
      assert pairs[|pairs| - 1] == p && pairs == front + [p];
      var other := if m == p.0 then p.1 else p.0;
      AbsorbedIff(n, front, m, j);
      AbsorbedIff(n, front, other, j);
      assert j in Absorbed(n, pairs)[m] <==>
        j in Absorbed(n, front)[m] || (Joins(p, other, m) && j in Absorbed(n, front)[other]);
      if j in Absorbed(n, front)[m] {
        ClimbsLonger(front, p, j, m);
      } else if Joins(p, other, m) && j in Absorbed(n, front)[other] {
        ClimbsFurther(front, p, j, other, m);
      }
      if ClimbsTo(pairs, j, m) {
        var c := ClimbsSplit(front, p, j, m);
      }
    }
  }

  lemma FirstClimb(pairs: seq<(nat, nat)>, xs: seq<nat>, ks: seq<nat>)
    requires Climbs(pairs, xs, ks)
    ensures |xs| == |ks| + 1 && (ks != [] ==> pairs != [])
  {
    assert ks != [] ==> Climb(pairs, xs, ks, 0);
  }

  lemma ClimbsSelf(pairs: seq<(nat, nat)>, a: nat)
    ensures ClimbsTo(pairs, a, a)
  {
    assert Climbs(pairs, [a], []) && [a][0] == a && Last([a]) == a;
  }

  lemma ClimbsNowhere(a: nat, b: nat)
    ensures ClimbsTo([], a, b) <==> a == b
  {
    hide Climbs;
    ClimbsSelf([], a);
    forall xs: seq<nat>, ks: seq<nat> | Climbs([], xs, ks) ensures |xs| == 1 {
      FirstClimb([], xs, ks);
    }
  }

  // The lookups in a class of positions all give the whole class exactly when
  // from each of these positions a chain of pairs, met in the order of the
  // list, leads to the last of them.
  lemma LoopLookupExact(f: Func, X: set<nat>, m: nat)
    requires WellOwned(f) && f.loop && Component(f.root.inputs, f.pairs, X) && m in X && forall i :: i in X ==> i <= m
    ensures (forall i, c :: i in X && c in LoopBlocks(f)[i] ==> FindsAll(f, X, c))
         <==> (forall j :: j in X ==> ClimbsTo(f.pairs, j, m))
  {
    var n, blocks := f.root.inputs, LoopBlocks(f);
    hide ClimbsTo;
    forall j ensures j in Absorbed(n, f.pairs)[m] <==> ClimbsTo(f.pairs, j, m) {
      AbsorbedIff(n, f.pairs, m, j);
    }
    if forall j :: j in X ==> j in Absorbed(n, f.pairs)[m] {
      forall i, c | i in X && c in blocks[i] ensures FindsAll(f, X, c) {
        TopCovers(f, X, m, i, c);
      }
    } else {
      var j :| j in X && j !in Absorbed(n, f.pairs)[m];
      TopMisses(f, X, m, j);
      var c := InData(f.root, m);
      assert c in blocks[m];
      assert !FindsAll(f, X, c);
    }
  }

  lemma TopCovers(f: Func, X: set<nat>, m: nat, i: nat, c: Port)
    requires WellOwned(f) && f.loop && Component(f.root.inputs, f.pairs, X) && m in X && forall i :: i in X ==> i <= m
    requires forall j :: j in X ==> j in Absorbed(f.root.inputs, f.pairs)[m]
    requires i in X && c in LoopBlocks(f)[i]
    ensures LastWith(BlocksOf(f), c) == Some(BlocksOf(f)[m]) && Covers(f, X, BlocksOf(f)[m])
  {
    var k := LoopLookup(f, X, i, c);
    JoinedSpans(LoopBlocks(f), f.pairs, m);
    assert c in BlocksOf(f)[m];
    assert k == m;
  }

  lemma TopMisses(f: Func, X: set<nat>, m: nat, j: nat)
    requires WellOwned(f) && f.loop && Component(f.root.inputs, f.pairs, X) && m in X && forall i :: i in X ==> i <= m
    requires j in X && j !in Absorbed(f.root.inputs, f.pairs)[m]
    ensures LastWith(BlocksOf(f), InData(f.root, m)) == Some(BlocksOf(f)[m]) && !Covers(f, X, BlocksOf(f)[m])
  {
    var blocks := LoopBlocks(f);
    var c, e := InData(f.root, m), InData(f.root, j);
    assert c in blocks[m] && e in blocks[j];
    var k := LoopLookup(f, X, m, c);
    AbsorbedWithin(f.root.inputs, f.pairs, X, m);
    JoinedSpans(blocks, f.pairs, m);
    assert c in BlocksOf(f)[m];
    assert k == m;
    LoopApart(f);
    assert forall i :: i in Absorbed(f.root.inputs, f.pairs)[m] ==> e !in blocks[i];
    assert e !in BlocksOf(f)[m];
  }

  // Classes of one or two positions always meet the condition.
  lemma SmallClasses(n: nat, pairs: seq<(nat, nat)>, X: set<nat>, i: nat, m: nat)
    requires Component(n, pairs, X) && X == {i, m}
    ensures ClimbsTo(pairs, i, m) && ClimbsTo(pairs, m, m)
  {
    ClimbsSelf(pairs, m);
    if i != m {
      var Y := {m};
      assert m in X * Y && i in X && i !in Y;
      var k := Leaving(pairs, Y);
      assert pairs[k].0 in X <==> pairs[k].1 in X;
      assert Climb(pairs, [i, m], [k], 0);
      assert Climbs(pairs, [i, m], [k]) && [i, m][0] == i && Last([i, m]) == m;
    }
  }

  lemma Leaving(pairs: seq<(nat, nat)>, X: set<nat>) returns (k: nat)
    requires !ClosedUnder(pairs, X)
    ensures k < |pairs| && !(pairs[k].0 in X <==> pairs[k].1 in X)
  {
    k :| k < |pairs| && !(pairs[k].0 in X <==> pairs[k].1 in X);
  }

  // ------------------------------------------------------- a class that falls

  // A body whose NetOutput hands position 2 on at 0 and position 0 on at 1.
  lemma CrossedPairs(c: Scope, net: Node, a: Node, d: Node)
    requires net.inputs == 3 && a.kind == "Data" && d.kind == "Data"
    requires At(c.links, InData(net, 0)) == [OutData(d, 0)] && At(c.links, InData(net, 1)) == [OutData(a, 0)]
    requires At(c.links, InData(net, 2)) == []
    requires a in c.tags.data && c.tags.data[a] == 0 && d in c.tags.data && c.tags.data[d] == 2
    requires forall k: nat {:trigger InData(net, k)} :: k < 3 ==>
      InData(net, k) in c.tags.nets && c.tags.nets[InData(net, k)] == k
    ensures PairsOf(c, net, net.inputs) == [(2, 0), (0, 1)]
  {
    assert PairAt(c, net, 0) == [(2, 0)] && PairAt(c, net, 1) == [(0, 1)] && PairAt(c, net, 2) == [];
    assert PairsOf(c, net, 3) == PairsOf(c, net, 2) + [] && PairsOf(c, net, 2) == PairsOf(c, net, 1) + [(0, 1)];
    assert PairsOf(c, net, 1) == PairsOf(c, net, 0) + [(2, 0)];
  }

  function CrossedFunc(root: Node, net: Node, a: Node, b: Node, d: Node): Func {
    Func(root, true, [[a], [b], [d]], [[InData(net, 0)], [InData(net, 1)], [InData(net, 2)]], [(2, 0), (0, 1)])
  }

  // The pairs identify all three positions, but position 1 comes to position 0
  // only after 0 has been joined with 2: looking up 2 misses the cells of 1.
  lemma ThreePositionsFall(root: Node, net: Node, a: Node, b: Node, d: Node)
    requires root.inputs == 3 && Distinct([root, net, a, b, d])
    ensures var f := CrossedFunc(root, net, a, b, d);
      && WellOwned(f) && Component(3, f.pairs, {0, 1, 2}) && !ClimbsTo(f.pairs, 1, 2)
      && LastWith(BlocksOf(f), InData(root, 2)) == Some(BlocksOf(f)[2]) && InData(root, 1) !in BlocksOf(f)[2]
  {
    var f := CrossedFunc(root, net, a, b, d);
    CrossedOwned(root, net, a, b, d);
    CrossedComponent();
    CrossedClimb();
    hide WellOwned, BlocksOf, Component, ClimbsTo;
    AbsorbedIff(3, f.pairs, 2, 1);
    CrossedMisses(f);
  }

  lemma CrossedMisses(f: Func)
    requires WellOwned(f) && f.loop && f.root.inputs == 3 && f.pairs == [(2, 0), (0, 1)]
    requires Component(3, f.pairs, {0, 1, 2}) && 1 !in Absorbed(3, f.pairs)[2]
    ensures LastWith(BlocksOf(f), InData(f.root, 2)) == Some(BlocksOf(f)[2]) && InData(f.root, 1) !in BlocksOf(f)[2]
  {
    hide Component, LastWith;
    TopMisses(f, {0, 1, 2}, 2, 1);
    MissedCell(f, 2, 1);
  }

  lemma MissedCell(f: Func, m: nat, j: nat)
    requires WellOwned(f) && f.loop && m < f.root.inputs && j < f.root.inputs
    requires j !in Absorbed(f.root.inputs, f.pairs)[m]
    ensures InData(f.root, j) !in BlocksOf(f)[m]
  {
    JoinedSpans(LoopBlocks(f), f.pairs, m);
    LoopApart(f);
    assert InData(f.root, j) in LoopBlocks(f)[j];
  }

  lemma CrossedOwned(root: Node, net: Node, a: Node, b: Node, d: Node)
    requires root.inputs == 3 && Distinct([root, net, a, b, d])
    ensures WellOwned(CrossedFunc(root, net, a, b, d))
  {
    var s := [root, net, a, b, d];
    assert root != net && root != a && root != b && root != d && net != a && net != b && net != d && a != b &&
      a != d && b != d by {
      assert s[0] == root && s[1] == net && s[2] == a && s[3] == b && s[4] == d;
    }
    hide Distinct;
    var f := CrossedFunc(root, net, a, b, d);
    assert forall i, n :: 0 <= i < 3 ==> (n in f.data[i] <==> n == if i == 0 then a else if i == 1 then b else d);
    assert forall i, p :: 0 <= i < 3 ==> (p in f.nets[i] <==> p == InData(net, i));
  }

  lemma CrossedComponent()
    ensures Component(3, [(2, 0), (0, 1)], {0, 1, 2})
  {
    var pairs: seq<(nat, nat)> := [(2, 0), (0, 1)];
    forall Y | ClosedUnder(pairs, Y) && {0, 1, 2} * Y != {} ensures {0, 1, 2} <= Y {
      assert pairs[0].0 in Y <==> pairs[0].1 in Y;
      assert pairs[1].0 in Y <==> pairs[1].1 in Y;
    }
    forall k | 0 <= k < |pairs| ensures pairs[k].0 in {0, 1, 2} <==> pairs[k].1 in {0, 1, 2} {
    }
  }

  lemma CrossedClimb()
    ensures !ClimbsTo([(2, 0), (0, 1)], 1, 2)
  {
    hide ClimbsTo;
    var pairs: seq<(nat, nat)> := [(2, 0), (0, 1)];
    if ClimbsTo(pairs, 1, 2) {
      assert pairs == [(2, 0)] + [(0, 1)];
      var c := ClimbsSplit([(2, 0)], (0, 1), 1, 2);
      assert c == 2;
      assert [(2, 0)] == [] + [(2, 0)];
      var e := ClimbsSplit([], (2, 0), 1, 2);
      ClimbsNowhere(1, e);
    }
  }
}
