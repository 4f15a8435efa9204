// Origin formats of tensor descriptors: what one propagation step may do to
// them, and which edges are still waiting for one.
module Formats {
  import opened Links
  import opened RefRelations

  datatype Format = ND | RESERVED | Layout(code: nat)

  datatype Desc = Desc(origin: Format, format: Format)

  type Descs = map<Port, Desc>

  // What an operator's infer-format function makes of its descriptors.
  datatype Inferred = NotInferred | Inferred(ins: seq<Desc>, outs: seq<Desc>)

  // Infer-format functions by operator type; they see the node (by name) and
  // its descriptors.
  type Callbacks = map<string, (string, seq<Desc>, seq<Desc>) -> Inferred>

  const CHANGE_DIM_NODES: set<string> := {"Permute", "ExpandDims", "Squeeze"}
  const DIM_SIZE_4D: nat := 4

  // -------------------------------------------------- the default inference

  function FirstNoneNd(ds: seq<Desc>, otherwise: Format): (r: Format)
    ensures r == ND <==> otherwise == ND && forall d :: d in ds ==> d.origin == ND
    ensures r != otherwise ==> exists d :: d in ds && d.origin == r
  {
    if ds == [] then otherwise
    else if ds[0].origin != ND then ds[0].origin
    else FirstNoneNd(ds[1..], otherwise)
  }

  function Filled(ds: seq<Desc>, f: Format): (r: seq<Desc>)
    ensures |r| == |ds|
  {
    seq(|ds|, i requires 0 <= i < |ds| => if ds[i].origin == ND then Desc(f, f) else ds[i])
  }

  // The first non-ND output format, or else the first non-ND input format,
  // replaces ND everywhere.
  function DefaultInferred(ins: seq<Desc>, outs: seq<Desc>): Inferred {
    var f := FirstNoneNd(outs, FirstNoneNd(ins, ND));
    Inferred(Filled(ins, f), Filled(outs, f))
  }

  method FirstFormat(ds: seq<Desc>, otherwise: Format) returns (f: Format)
    ensures f == FirstNoneNd(ds, otherwise)
  {
    f := otherwise;
    var k := 0;
    while k < |ds|
      invariant k <= |ds| && f == otherwise && FirstNoneNd(ds, otherwise) == FirstNoneNd(ds[k..], otherwise)
    {
      assert ds[k..][0] == ds[k] && ds[k..][1..] == ds[k + 1..];
      if ds[k].origin != ND {
        return ds[k].origin;
      }
      k := k + 1;
    }
  }

  method Refresh(ds: seq<Desc>, f: Format) returns (r: seq<Desc>)
    ensures r == Filled(ds, f)
  {
    r := ds;
    for k := 0 to |ds|
      invariant |r| == |ds| && r[..k] == Filled(ds, f)[..k] && r[k..] == ds[k..]
    {
      assert ds[k] == r[k..][0];
      if r[k].origin == ND {
        r := r[k := Desc(f, f)];
      }
      assert r[..k + 1] == r[..k] + [r[k]];
    }
    assert r == r[..|ds|] && Filled(ds, f) == Filled(ds, f)[..|ds|];
  }

  method DefaultInferFormat(ins: seq<Desc>, outs: seq<Desc>) returns (r: Inferred)
    ensures r == DefaultInferred(ins, outs)
  {
    var f := FirstFormat(ins, ND);
    f := FirstFormat(outs, f);
    var a := Refresh(ins, f);
    var b := Refresh(outs, f);
    r := Inferred(a, b);
  }

  // --------------------------------------------- what one change may do

  ghost predicate Among(d: Desc, palette: set<Format>) {
    (d.origin == ND || d.origin in palette) && (d.format == ND || d.format in palette)
  }

  // Non-ND stays non-ND, and whatever changes has both formats equal.
  ghost predicate Settles(d: Desc, e: Desc) {
    (d.origin != ND ==> e.origin != ND) && (e == d || e.origin == e.format)
  }

  ghost predicate LawfulResult(ins: seq<Desc>, r: seq<Desc>, palette: set<Format>) {
    |r| == |ins| && forall i :: 0 <= i < |ins| ==> Settles(ins[i], r[i]) && Among(r[i], palette)
  }

  ghost predicate AllAmong(ds: seq<Desc>, palette: set<Format>) {
    forall i :: 0 <= i < |ds| ==> Among(ds[i], palette)
  }

  // A callback never takes a format back and invents none.
  ghost predicate LawfulCallbacks(callbacks: Callbacks, palette: set<Format>) {
    forall kind, name, ins, outs {:trigger callbacks[kind](name, ins, outs)} ::
      kind in callbacks && AllAmong(ins, palette) && AllAmong(outs, palette) ==>
        var r := callbacks[kind](name, ins, outs);
        r.Inferred? ==> LawfulResult(ins, r.ins, palette) && LawfulResult(outs, r.outs, palette)
  }

  // The default inference is lawful, and afterwards either no descriptor is ND
  // or all still are.
  lemma DefaultIsLawful(ins: seq<Desc>, outs: seq<Desc>, palette: set<Format>)
    requires AllAmong(ins, palette) && AllAmong(outs, palette)
    ensures var r := DefaultInferred(ins, outs);
      && LawfulResult(ins, r.ins, palette) && LawfulResult(outs, r.outs, palette)
      && ((forall d :: d in ins + outs ==> d.origin == ND) <==>
           (exists d :: d in r.ins + r.outs && d.origin == ND) || ins + outs == [])
  {
    var f := FirstNoneNd(outs, FirstNoneNd(ins, ND));
    var r := DefaultInferred(ins, outs);
    assert f == ND || f in palette;
    if ins + outs != [] && forall d :: d in ins + outs ==> d.origin == ND {
      assert (ins + outs)[0] in ins + outs;
      assert f == ND;
      if ins != [] {
        assert r.ins[0] in r.ins + r.outs;
      } else {
        assert r.outs[0] in r.ins + r.outs;
      }
    }
    if exists d :: d in r.ins + r.outs && d.origin == ND {
      assert f == ND;
      forall d | d in ins + outs ensures d.origin == ND {
        assert d in ins || d in outs;
      }
    }
  }

  // ------------------------------------------------------------ the setting

  // What propagation does not change: the links, the dimension count of every
  // tensor and the alias table.
  datatype Setting = Setting(links: Links, dims: map<Port, nat>, table: map<Port, seq<Port>>)

  // Slots that propagation leaves alone: scalars, and small tensors of nodes
  // that change the meaning of dimensions.
  predicate Exempt(s: Setting, p: Port)
    requires p in s.dims
  {
    s.dims[p] == 0 || (p.node.kind in CHANGE_DIM_NODES && s.dims[p] < DIM_SIZE_4D)
  }

  predicate IsSlot(p: Port) {
    match p
    case InData(n, i) => i < n.inputs
    case OutData(n, i) => i < n.outputs
    case _ => false
  }

  // A data input has one data source, as linking ensures; control links may
  // end there too.
  ghost predicate SingleSource(g: Links) {
    forall x, a, b {:trigger a in g[x], b in g[x]} ::
      x in g && x.InData? && a in g[x] && b in g[x] && a.OutData? && b.OutData? ==> a == b
  }

  // The slots that p looks at: an output at all its peers, an input at its
  // first peer only, which hides a data source behind a control link.
  ghost predicate Sees(g: Links, p: Port, q: Port) {
    q in At(g, p) && (p.InData? ==> At(g, p)[0] == q)
  }

  // The slots are the data ports of the links; the nodes of a region have all
  // of theirs.
  ghost predicate WellSet(s: Setting) {
    && WellLinked(s.links) && SingleSource(s.links) && Reflexive(s.table)
    && (forall p {:trigger p in s.dims} :: p in s.dims ==> p in s.links && IsSlot(p))
    && (forall p {:trigger p in s.links} :: p in s.links && (p.InData? || p.OutData?) ==> p in s.dims)
  }

  // A set of nodes that edges and aliases do not leave.
  ghost predicate Region(s: Setting, region: set<Node>) {
    && (forall n, k: nat {:trigger InData(n, k)} :: n in region && k < n.inputs ==> InData(n, k) in s.dims)
    && (forall n, k: nat {:trigger OutData(n, k)} :: n in region && k < n.outputs ==> OutData(n, k) in s.dims)
    && (forall p, q {:trigger q in s.links[p]} :: p in s.links && p.node in region && q in s.links[p] ==>
         q.node in region)
    && (forall p, q {:trigger q in s.table[p]} :: p in s.table && p.node in region && q in s.table[p] ==>
         q.node in region)
  }

  ghost predicate InPalette(d: Descs, palette: set<Format>) {
    forall p {:trigger d[p]} :: p in d ==> Among(d[p], palette)
  }

  ghost function NdSlots(d: Descs): set<Port> {
    set p | p in d && d[p].origin == ND
  }

  // d became e by lawful changes inside the region.
  ghost predicate Changed(d: Descs, e: Descs, region: set<Node>) {
    && e.Keys == d.Keys
    && forall p {:trigger e[p]} :: p in d ==> Settles(d[p], e[p]) && (p.node !in region ==> e[p] == d[p])
  }

  // What a piece of propagation does: it only adds to the queue, and a longer
  // queue is paid for by a slot that is no longer ND.
  ghost predicate Advances(d: Descs, q: seq<Node>, e: Descs, r: seq<Node>, region: set<Node>, palette: set<Format>) {
    && Changed(d, e, region) && InPalette(e, palette)
    && q <= r && (forall n :: n in r ==> n in region)
    && (r == q || NdSlots(e) < NdSlots(d))
  }

  lemma NdShrinks(d: Descs, e: Descs, region: set<Node>)
    requires Changed(d, e, region)
    ensures NdSlots(e) <= NdSlots(d)
  {
    forall p | p in NdSlots(e) ensures p in NdSlots(d) {
      assert Settles(d[p], e[p]);
    }
  }

  lemma Pays(d: Descs, e: Descs, region: set<Node>, p: Port)
    requires Changed(d, e, region) && p in d && d[p].origin == ND && e[p].origin != ND
    ensures NdSlots(e) < NdSlots(d)
  {
    NdShrinks(d, e, region);
    assert p in NdSlots(d) && p !in NdSlots(e);
  }

  lemma AdvancesSelf(d: Descs, q: seq<Node>, region: set<Node>, palette: set<Format>)
    requires InPalette(d, palette) && forall n :: n in q ==> n in region
    ensures Advances(d, q, d, q, region, palette)
  {
  }

  lemma ChangedOn(d: Descs, e: Descs, f: Descs, region: set<Node>)
    requires Changed(d, e, region) && Changed(e, f, region)
    ensures Changed(d, f, region)
  {
    forall p | p in d ensures Settles(d[p], f[p]) && (p.node !in region ==> f[p] == d[p]) {
      assert Settles(d[p], e[p]) && Settles(e[p], f[p]);
      assert p.node !in region ==> e[p] == d[p];
    }
  }

  lemma AdvancesOn(d: Descs, q: seq<Node>, e: Descs, r: seq<Node>, f: Descs, t: seq<Node>, region: set<Node>,
                   palette: set<Format>)
    requires Advances(d, q, e, r, region, palette) && Advances(e, r, f, t, region, palette)
    ensures Advances(d, q, f, t, region, palette)
  {
    ChangedOn(d, e, f, region);
    NdShrinks(d, e, region);
    NdShrinks(e, f, region);
  }

  // ---------------------------------------------------------- open work

  // Every slot that p could still infer has been inferred.
  ghost predicate Settled(s: Setting, d: Descs, p: Port)
    requires p in d
  {
    d[p].origin != ND ==>
      forall q :: Sees(s.links, p, q) && q in d && q in s.dims ==> d[q].origin != ND || Exempt(s, q)
  }

  // All unsettled slots are of nodes that are queued or still to come, or are
  // in the part of the current node that is not done.
  ghost predicate Waiting(s: Setting, d: Descs, q: seq<Node>, rest: set<Node>, todo: set<Port>) {
    forall p {:trigger Settled(s, d, p)} :: p in d ==> Settled(s, d, p) || p.node in q || p.node in rest || p in todo
  }

  // Newly inferred slots are of queued nodes.
  ghost predicate Announced(d: Descs, e: Descs, q: seq<Node>) {
    forall p {:trigger e[p]} :: p in d && p in e && d[p].origin == ND && e[p].origin != ND ==> p.node in q
  }

  lemma StillSettled(s: Setting, d: Descs, e: Descs, region: set<Node>, p: Port)
    requires Changed(d, e, region) && p in d && Settled(s, d, p) && (d[p].origin != ND || e[p].origin == ND)
    ensures Settled(s, e, p)
  {
    if d[p].origin != ND {
      forall q | Sees(s.links, p, q) && q in e && q in s.dims ensures e[q].origin != ND || Exempt(s, q) {
        assert Settles(d[q], e[q]);
      }
    }
  }

  lemma WaitingGrows(s: Setting, d: Descs, q: seq<Node>, e: Descs, r: seq<Node>, region: set<Node>, rest: set<Node>,
                     todo: set<Port>)
    requires Waiting(s, d, q, rest, todo) && Changed(d, e, region) && Announced(d, e, r) && q <= r
    ensures Waiting(s, e, r, rest, todo)
  {
    forall p | p in e ensures Settled(s, e, p) || p.node in r || p.node in rest || p in todo {
      if Settled(s, d, p) {
        if d[p].origin != ND || e[p].origin == ND {
          StillSettled(s, d, e, region, p);
        }
      } else {
        assert p.node in q ==> p.node in r;
      }
    }
  }

  // o is the one data source of p.
  ghost predicate SourceIs(s: Setting, p: Port, o: Port) {
    o in At(s.links, p) && o.OutData? && forall a :: a in At(s.links, p) && a.OutData? ==> a == o
  }

  // A NetOutput input fed by an inferred output needs no announcement.
  lemma WaitingEnd(s: Setting, d: Descs, q: seq<Node>, e: Descs, region: set<Node>, rest: set<Node>, todo: set<Port>,
                   p: Port, o: Port)
    requires Waiting(s, d, q, rest, todo) && Changed(d, e, region) && p in d && o in d && d[o].origin != ND
    requires WellSet(s) && p.InData? && SourceIs(s, p, o)
    requires forall x :: x in d && x != p ==> e[x] == d[x]
    ensures Waiting(s, e, q, rest, todo)
  {
    forall x | x in e ensures Settled(s, e, x) || x.node in q || x.node in rest || x in todo {
      if x == p {
        assert Settles(d[o], e[o]);
        forall q | Sees(s.links, p, q) && q in e && q in s.dims ensures q == o {
          assert q in s.links[p];
        }
      } else if Settled(s, d, x) {
        StillSettled(s, d, e, region, x);
      }
    }
  }

  lemma WaitingDone(s: Setting, d: Descs, q: seq<Node>, rest: set<Node>, todo: set<Port>, p: Port)
    requires Waiting(s, d, q, rest, todo) && p in d && Settled(s, d, p)
    ensures Waiting(s, d, q, rest, todo - {p})
  {
  }

  // The part of n that is not done: inputs from i and outputs from j on.
  ghost function Todo(s: Setting, n: Node, i: nat, j: nat): set<Port> {
    set p | p in s.dims && p.node == n && ((p.InData? && p.idx >= i) || (p.OutData? && p.idx >= j))
  }

  lemma WaitingPopped(s: Setting, d: Descs, q: seq<Node>, rest: set<Node>)
    requires WellSet(s) && d.Keys == s.dims.Keys && q != [] && Waiting(s, d, q, rest, {})
    ensures Waiting(s, d, q[1..], rest, Todo(s, q[0], 0, 0))
  {
    forall p | p in d ensures Settled(s, d, p) || p.node in q[1..] || p.node in rest || p in Todo(s, q[0], 0, 0) {
      if p.node in q {
        assert p.node == q[0] || p.node in q[1..];
        assert p.node == q[0] ==> p in Todo(s, q[0], 0, 0);
      }
    }
  }

  lemma TodoSteps(s: Setting, n: Node, i: nat, j: nat)
    requires WellSet(s)
    ensures Todo(s, n, i, j) - {InData(n, i)} == Todo(s, n, i + 1, j)
    ensures Todo(s, n, i, j) - {OutData(n, j)} == Todo(s, n, i, j + 1)
    ensures Todo(s, n, n.inputs, n.outputs) == {}
  {
  }

  // ------------------------------------------------------------ closure

  // Every data edge: a known origin format at one end means a known one at the
  // other, exempt ends aside. An input with a control link in front of its data
  // source does not pass its format back.
  ghost predicate EdgesClosed(s: Setting, d: Descs) {
    forall o, i {:trigger i in s.links[o]} ::
      o in s.links && i in s.links[o] && o.OutData? && i.InData? && o in d && i in d && o in s.dims && i in s.dims ==>
        && (d[o].origin != ND ==> d[i].origin != ND || Exempt(s, i))
        && (d[i].origin != ND && Sees(s.links, i, o) ==> d[o].origin != ND || Exempt(s, o))
  }

  lemma NothingWaiting(s: Setting, d: Descs)
    requires WellSet(s) && d.Keys == s.dims.Keys && Waiting(s, d, [], {}, {})
    ensures EdgesClosed(s, d)
  {
    forall o, i | o in s.links && i in s.links[o] && o.OutData? && i.InData? && o in d && i in d && o in s.dims &&
      i in s.dims
      ensures d[o].origin != ND ==> d[i].origin != ND || Exempt(s, i)
      ensures d[i].origin != ND && Sees(s.links, i, o) ==> d[o].origin != ND || Exempt(s, o)
    {
      PeersAgree(s.links, o, i);
      assert Sees(s.links, o, i) && Settled(s, d, o) && Settled(s, d, i);
    }
  }

  // ---------------------------------------------------------- the changes

  function SetAll(d: Descs, cells: set<Port>, f: Format): (e: Descs)
    ensures e.Keys == d.Keys
  {
    map p | p in d :: if p in cells then Desc(f, f) else d[p]
  }

  lemma SetAllChanges(d: Descs, cells: set<Port>, f: Format, region: set<Node>, palette: set<Format>)
    requires f != ND && f in palette && InPalette(d, palette) && forall p :: p in cells ==> p.node in region
    ensures Changed(d, SetAll(d, cells, f), region) && InPalette(SetAll(d, cells, f), palette)
  {
  }

  function InDescs(d: Descs, n: Node): (r: seq<Desc>)
    requires forall k: nat {:trigger InData(n, k)} :: k < n.inputs ==> InData(n, k) in d
    ensures |r| == n.inputs
  {
    seq(n.inputs, k requires 0 <= k < n.inputs => d[InData(n, k)])
  }

  function OutDescs(d: Descs, n: Node): (r: seq<Desc>)
    requires forall k: nat {:trigger OutData(n, k)} :: k < n.outputs ==> OutData(n, k) in d
    ensures |r| == n.outputs
  {
    seq(n.outputs, k requires 0 <= k < n.outputs => d[OutData(n, k)])
  }

  function Put(d: Descs, n: Node, ins: seq<Desc>, outs: seq<Desc>): (e: Descs)
    ensures e.Keys == d.Keys
  {
    map p | p in d ::
      if p.node == n && p.InData? && p.idx < |ins| then ins[p.idx]
      else if p.node == n && p.OutData? && p.idx < |outs| then outs[p.idx]
      else d[p]
  }

  lemma PutChanges(d: Descs, n: Node, ins: seq<Desc>, outs: seq<Desc>, region: set<Node>, palette: set<Format>)
    requires forall k: nat {:trigger InData(n, k)} :: k < n.inputs ==> InData(n, k) in d
    requires forall k: nat {:trigger OutData(n, k)} :: k < n.outputs ==> OutData(n, k) in d
    requires InPalette(d, palette) && n in region
    requires LawfulResult(InDescs(d, n), ins, palette) && LawfulResult(OutDescs(d, n), outs, palette)
    ensures Changed(d, Put(d, n, ins, outs), region) && InPalette(Put(d, n, ins, outs), palette)
    ensures forall p {:trigger Put(d, n, ins, outs)[p]} :: p in d && p.node != n ==> Put(d, n, ins, outs)[p] == d[p]
  {
    var e := Put(d, n, ins, outs);
    forall p | p in d ensures Settles(d[p], e[p]) && Among(e[p], palette) {
      if p.node == n && p.InData? && p.idx < |ins| {
        assert InDescs(d, n)[p.idx] == d[p];
      } else if p.node == n && p.OutData? && p.idx < |outs| {
        assert OutDescs(d, n)[p.idx] == d[p];
      }
    }
  }
}
