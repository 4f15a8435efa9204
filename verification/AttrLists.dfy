// How the name-to-index maps of an operator are stored: as two parallel lists
// in the attributes of its message.
module AttrLists {
  import opened Links

  // The lists name every key once, next to its value.
  ghost predicate Lists(index: map<string, nat>, keys: seq<string>, values: seq<nat>) {
    && |keys| == |values| && Distinct(keys)
    && (forall i :: 0 <= i < |keys| ==> keys[i] in index && values[i] == index[keys[i]])
    && (forall x :: x in index ==> x in keys)
  }

  // map::insert keeps an entry that is already there.
  function Filled(start: map<string, nat>, keys: seq<string>, values: seq<nat>): map<string, nat>
    requires |keys| == |values|
  {
    if keys == [] then start
    else
      var before := Filled(start, Front(keys), Front(values));
      if Last(keys) in before then before else before[Last(keys) := Last(values)]
  }

  method OpDescToAttrDef(index: map<string, nat>) returns (keys: seq<string>, values: seq<nat>)
    ensures Lists(index, keys, values)
  {
    keys, values := [], [];
    var rest := index.Keys;
    while rest != {}
      invariant rest <= index.Keys && |keys| == |values| && Distinct(keys)
      invariant forall i :: 0 <= i < |keys| ==> keys[i] in index && keys[i] !in rest && values[i] == index[keys[i]]
      invariant forall x :: x in index && x !in rest ==> x in keys
      decreases rest
    {
      var x :| x in rest;
      keys, values, rest := keys + [x], values + [index[x]], rest - {x};
    }
  }

  // Lists of different lengths are left out.
  method AttrDefToOpDesc(start: map<string, nat>, keys: seq<string>, values: seq<nat>) returns (index: map<string, nat>)
    ensures index == if |keys| == |values| then Filled(start, keys, values) else start
  {
    index := start;
    if |keys| != |values| {
      return;
    }
    for i := 0 to |keys|
      invariant index == Filled(start, keys[..i], values[..i])
    {
      assert Front(keys[..i + 1]) == keys[..i] && Front(values[..i + 1]) == values[..i];
      if keys[i] !in index {
        index := index[keys[i] := values[i]];
      }
    }
    assert keys[..|keys|] == keys && values[..|values|] == values;
  }

  lemma {:induction false} FilledIs(keys: seq<string>, values: seq<nat>)
    requires |keys| == |values| && Distinct(keys)
    ensures forall x :: x in Filled(map[], keys, values) <==> x in keys
    ensures forall i :: 0 <= i < |keys| ==>
      keys[i] in Filled(map[], keys, values) && Filled(map[], keys, values)[keys[i]] == values[i]
  {
    if keys != [] {
      FrontLast(keys);
      FilledIs(Front(keys), Front(values));
      assert Last(keys) !in Front(keys);
    }
  }

  // What is read back from the lists is the map that was written.
  lemma NameIndexRoundTrip(index: map<string, nat>, keys: seq<string>, values: seq<nat>)
    requires Lists(index, keys, values)
    ensures Filled(map[], keys, values) == index
  {
    FilledIs(keys, values);
    var back := Filled(map[], keys, values);
    forall x | x in index ensures x in back && back[x] == index[x] {
      var i :| 0 <= i < |keys| && keys[i] == x;
    }
  }
}
