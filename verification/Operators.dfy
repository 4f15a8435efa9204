// OperatorImpl: the links between operators that a graph is built from. Each
// linking operation writes to both ends.
module Operators {
  import opened Links

  // One end of a link: an input or output of an operator.
  datatype OpIO = OpIO(name: string, index: nat, owner: OperatorImpl)

  class OperatorImpl {
    const name: string
    const kind: string
    const inputs: nat
    const outputs: nat
    const inputIndex: map<string, nat>
    const outputIndex: map<string, nat>
    var outputLinks: map<string, seq<OpIO>>
    var inputLink: map<string, OpIO>
    var controlInputs: seq<OperatorImpl>
    var controlOutputs: seq<OperatorImpl>

    constructor (name: string, kind: string, inputIndex: map<string, nat>, outputIndex: map<string, nat>)
      ensures this.name == name && this.kind == kind && this.inputIndex == inputIndex && this.outputIndex == outputIndex
      ensures inputs == |inputIndex| && outputs == |outputIndex|
      ensures outputLinks == map[] && inputLink == map[] && controlInputs == [] && controlOutputs == []
    {
      this.name, this.kind, this.inputIndex, this.outputIndex := name, kind, inputIndex, outputIndex;
      this.inputs, this.outputs := |inputIndex|, |outputIndex|;
      outputLinks, inputLink, controlInputs, controlOutputs := map[], map[], [], [];
    }

    method UpdateLinkMapImpl(srcName: string, dst: OpIO)
      modifies this`outputLinks
      ensures outputLinks == old(outputLinks)[srcName := Recorded(old(outputLinks), srcName) + [dst]]
    {
      if srcName !in outputLinks {
        assert [] + [dst] == [dst];
        outputLinks := outputLinks[srcName := [dst]];
      } else {
        outputLinks := outputLinks[srcName := outputLinks[srcName] + [dst]];
      }
    }

    // An input that is set again keeps its first source here, yet the new
    // source records the link too.
    method SetInputImpl(dstName: string, source: OpIO)
      modifies this`inputLink, source.owner`outputLinks
      ensures inputLink ==
        if dstName == "" || dstName in old(inputLink) then old(inputLink) else old(inputLink)[dstName := source]
      ensures source.owner.outputLinks ==
        if dstName == "" || dstName !in inputIndex then old(source.owner.outputLinks)
        else old(source.owner.outputLinks)[source.name :=
               Recorded(old(source.owner.outputLinks), source.name) + [OpIO(dstName, inputIndex[dstName], this)]]
    {
      if dstName == "" {
        return;
      }
      if dstName !in inputLink {
        inputLink := inputLink[dstName := source];
      }
      if dstName !in inputIndex {
        return;
      }
      source.owner.UpdateLinkMapImpl(source.name, OpIO(dstName, inputIndex[dstName], this));
    }

    // Control links are recorded once, at both ends.
    method AddControlInputImp(src: OperatorImpl)
      modifies this`controlInputs, src`controlOutputs
      ensures controlInputs == if src in old(controlInputs) then old(controlInputs) else old(controlInputs) + [src]
      ensures src.controlOutputs ==
        if src in old(controlInputs) then old(src.controlOutputs) else old(src.controlOutputs) + [this]
    {
      for k := 0 to |controlInputs|
        invariant controlInputs == old(controlInputs) && src.controlOutputs == old(src.controlOutputs)
        invariant src !in controlInputs[..k]
      {
        if controlInputs[k] == src {
          return;
        }
      }
      assert controlInputs[..|controlInputs|] == controlInputs;
      controlInputs := controlInputs + [src];
      src.controlOutputs := src.controlOutputs + [this];
    }
  }

  function Recorded<T>(m: map<string, seq<T>>, k: string): seq<T> {
    if k in m then m[k] else []
  }

  // Indices name the inputs, and the outputs, one to one.
  ghost predicate Named(o: OperatorImpl) {
    && (forall x :: x in o.inputIndex ==> o.inputIndex[x] < o.inputs)
    && (forall x :: x in o.outputIndex ==> o.outputIndex[x] < o.outputs)
    && (forall x, y :: x in o.outputIndex && y in o.outputIndex && o.outputIndex[x] == o.outputIndex[y] ==> x == y)
  }

  // What every run of linking operations among ops keeps: links stay inside,
  // an output link ends at an input of the recorded name and index, and the
  // control lists of both ends agree, without repetition.
  ghost predicate WellWired(ops: set<OperatorImpl>)
    reads ops
  {
    (forall o :: o in ops ==> Named(o)) && LinksInside(ops) && ControlsAgree(ops)
  }

  ghost predicate LinksInside(ops: set<OperatorImpl>)
    reads ops`outputLinks, ops`inputLink
  {
    && (forall o, x {:trigger o.outputLinks[x]} :: o in ops && x in o.outputLinks ==> x in o.outputIndex)
    && (forall o, x, e {:trigger e in o.outputLinks[x]} :: o in ops && x in o.outputLinks && e in o.outputLinks[x] ==>
          && e.owner in ops && e.name in e.owner.inputIndex && e.index == e.owner.inputIndex[e.name]
          && e.name in e.owner.inputLink)
    && (forall o, x {:trigger o.inputLink[x]} :: o in ops && x in o.inputLink ==> o.inputLink[x].owner in ops)
  }

  ghost predicate ControlsAgree(ops: set<OperatorImpl>)
    reads ops`controlInputs, ops`controlOutputs
  {
    && (forall o, c {:trigger c in o.controlInputs} :: o in ops && c in o.controlInputs ==>
         c in ops && o in c.controlOutputs)
    && (forall o, c {:trigger c in o.controlOutputs} :: o in ops && c in o.controlOutputs ==>
         c in ops && o in c.controlInputs)
    && (forall o :: o in ops ==> Distinct(o.controlInputs) && Distinct(o.controlOutputs))
  }

  method SetInput(ops: set<OperatorImpl>, dst: OperatorImpl, dstName: string, source: OpIO)
    requires WellWired(ops) && dst in ops && source.owner in ops && source.name in source.owner.outputIndex
    modifies dst`inputLink, source.owner`outputLinks
    ensures WellWired(ops)
    ensures dstName != "" && dstName in dst.inputIndex ==>
      OpIO(dstName, dst.inputIndex[dstName], dst) in Recorded(source.owner.outputLinks, source.name)
  {
    hide ControlsAgree, LinksInside, WereInside, Recorded;
    ghost var outs, ins := OutputMaps(ops), InputMaps(ops);
    TakeLinks(ops);
    dst.SetInputImpl(dstName, source);
    LinksKept(ops, outs, ins, dst, dstName, source);
    NowRecorded(outs[source.owner], source.owner.outputLinks, source.name, dst, dstName);
  }

  function WithEnd(m: map<string, seq<OpIO>>, name: string, e: OpIO): map<string, seq<OpIO>> {
    m[name := Recorded(m, name) + [e]]
  }

  ghost function OutputMaps(ops: set<OperatorImpl>): map<OperatorImpl, map<string, seq<OpIO>>>
    reads ops`outputLinks
  {
    map o | o in ops :: o.outputLinks
  }

  ghost function InputMaps(ops: set<OperatorImpl>): map<OperatorImpl, map<string, OpIO>>
    reads ops`inputLink
  {
    map o | o in ops :: o.inputLink
  }

  // The links as they were.
  ghost predicate WereInside(ops: set<OperatorImpl>, outs: map<OperatorImpl, map<string, seq<OpIO>>>,
                             ins: map<OperatorImpl, map<string, OpIO>>)
  {
    && outs.Keys == ops && ins.Keys == ops
    && (forall o, x {:trigger outs[o][x]} :: o in ops && x in outs[o] ==> x in o.outputIndex)
    && (forall o, x, e {:trigger e in outs[o][x]} :: o in ops && x in outs[o] && e in outs[o][x] ==>
          && e.owner in ops && e.name in e.owner.inputIndex && e.index == e.owner.inputIndex[e.name]
          && e.name in ins[e.owner])
    && (forall o, x {:trigger ins[o][x]} :: o in ops && x in ins[o] ==> ins[o][x].owner in ops)
  }

  lemma TakeLinks(ops: set<OperatorImpl>)
    requires LinksInside(ops)
    ensures WereInside(ops, OutputMaps(ops), InputMaps(ops))
  {
  }

  lemma LinksKept(ops: set<OperatorImpl>, outs: map<OperatorImpl, map<string, seq<OpIO>>>,
                  ins: map<OperatorImpl, map<string, OpIO>>, dst: OperatorImpl, dstName: string, source: OpIO)
    requires WereInside(ops, outs, ins) && dst in ops && source.owner in ops && source.name in source.owner.outputIndex
    requires forall o :: o in ops && o != dst ==> o.inputLink == ins[o]
    requires forall o :: o in ops && o != source.owner ==> o.outputLinks == outs[o]
    requires dst.inputLink == if dstName == "" || dstName in ins[dst] then ins[dst] else ins[dst][dstName := source]
    requires source.owner.outputLinks ==
      if dstName == "" || dstName !in dst.inputIndex then outs[source.owner]
      else WithEnd(outs[source.owner], source.name, OpIO(dstName, dst.inputIndex[dstName], dst))
    ensures LinksInside(ops)
  {
    forall o, x | o in ops && x in o.outputLinks ensures x in o.outputIndex {
      assert x in outs[o] || (o == source.owner && x == source.name);
    }
    forall o, x, e | o in ops && x in o.outputLinks && e in o.outputLinks[x]
      ensures e.owner in ops && e.name in e.owner.inputIndex && e.index == e.owner.inputIndex[e.name]
      ensures e.name in e.owner.inputLink
    {
      if x in outs[o] && e in outs[o][x] {
        assert e.name in ins[e.owner];
      }
    }
    forall o, x | o in ops && x in o.inputLink ensures o.inputLink[x].owner in ops {
      if x in ins[o] {
        assert ins[o][x].owner in ops;
      }
    }
  }

  lemma NowRecorded(was: map<string, seq<OpIO>>, now: map<string, seq<OpIO>>, name: string, dst: OperatorImpl,
                    dstName: string)
    requires dstName != "" && dstName in dst.inputIndex ==>
      now == WithEnd(was, name, OpIO(dstName, dst.inputIndex[dstName], dst))
    ensures dstName != "" && dstName in dst.inputIndex ==>
      OpIO(dstName, dst.inputIndex[dstName], dst) in Recorded(now, name)
  {
  }

  // The overload that takes an operator needs it to have exactly one output.
  method SetInputFrom(ops: set<OperatorImpl>, dst: OperatorImpl, dstName: string, src: OperatorImpl)
    requires WellWired(ops) && dst in ops && src in ops
    modifies dst`inputLink, src`outputLinks
    ensures WellWired(ops)
    ensures src.outputs != 1 ==> dst.inputLink == old(dst.inputLink) && src.outputLinks == old(src.outputLinks)
  {
    if src.outputs != 1 {
      return;
    }
    if exists x :: x in src.outputIndex && src.outputIndex[x] == 0 && x != "" {
      var x :| x in src.outputIndex && src.outputIndex[x] == 0 && x != "";
      SetInput(ops, dst, dstName, OpIO(x, 0, src));
    }
  }

  method AddControlInput(ops: set<OperatorImpl>, dst: OperatorImpl, src: OperatorImpl)
    requires WellWired(ops) && dst in ops && src in ops
    modifies dst`controlInputs, src`controlOutputs
    ensures WellWired(ops) && src in dst.controlInputs && dst in src.controlOutputs
  {
    assert src in dst.controlInputs <==> dst in src.controlOutputs;
    dst.AddControlInputImp(src);
    assert src in old(dst.controlInputs) || (Last(dst.controlInputs) == src && Last(src.controlOutputs) == dst);
    assert forall o :: o in ops && o != dst ==> o.controlInputs == old(o.controlInputs);
    assert forall o :: o in ops && o != src ==> o.controlOutputs == old(o.controlOutputs);
  }
}
