// Output shapes of function operators, from the shapes that the subgraphs
// produce: the join over branches, the largest one over batches, and the
// comparison of a loop's input and output.
module BranchShapes {
  import opened Links
  import opened Products

  datatype Tensor = Tensor(dtype: string, dims: seq<int>)

  datatype Joining = Mismatch | Join(tensor: Tensor)

  // ------------------------------------------------------ the join, stepwise

  function JoinDims(a: seq<int>, b: seq<int>): (r: seq<int>)
    requires |a| == |b|
    ensures |r| == |a|
  {
    seq(|a|, j requires 0 <= j < |a| => if a[j] == b[j] then a[j] else UNKNOWN_DIM)
  }

  // Different element types end it with an error, a different number of
  // dimensions with the unknown rank.
  function JoinFrom(acc: Tensor, ts: seq<Tensor>): Joining
    decreases |ts|
  {
    if ts == [] then Join(acc)
    else if acc.dtype != ts[0].dtype then Mismatch
    else if |acc.dims| != |ts[0].dims| then Join(acc.(dims := UNKNOWN_RANK))
    else JoinFrom(acc.(dims := JoinDims(acc.dims, ts[0].dims)), ts[1..])
  }

  // No output mixes element types before a rank difference ends its join.
  ghost predicate Joinable(outs: seq<seq<Tensor>>) {
    forall i :: 0 <= i < |outs| && outs[i] != [] ==> JoinFrom(outs[i][0], outs[i]).Join?
  }

  // Outputs with branches become their join, the other ones stay.
  ghost predicate Joined(was: seq<Tensor>, outs: seq<seq<Tensor>>, now: seq<Tensor>)
    requires Joinable(outs)
  {
    && |now| == |was|
    && forall i :: 0 <= i < |now| ==>
         now[i] == if i < |outs| && outs[i] != [] then JoinFrom(outs[i][0], outs[i]).tensor else was[i]
  }

  // Every output has one element type and only sizes that fit.
  ghost predicate Comparable(outs: seq<seq<Tensor>>) {
    forall i, k :: 0 <= i < |outs| && 0 <= k < |outs[i]| ==>
      outs[i][k].dtype == outs[i][0].dtype && Sized(outs[i][k])
  }

  // Outputs with branches become the first largest of them, the other ones stay.
  ghost predicate Enlarged(was: seq<Tensor>, outs: seq<seq<Tensor>>, now: seq<Tensor>) {
    && |now| == |was|
    && forall i :: 0 <= i < |now| ==>
         if i < |outs| && outs[i] != [] then FirstLargest(now[i], outs[i]) else now[i] == was[i]
  }

  ghost predicate NoZeroDims(outs: seq<seq<Tensor>>) {
    forall i, t, j :: 0 <= i < |outs| && t in outs[i] && 0 <= j < |t.dims| ==> t.dims[j] != 0
  }

  class ParentNode {
    const multiBatch: bool  // the attribute with the number of batches is set
    var outputs: seq<Tensor>

    constructor (outputs: seq<Tensor>, multiBatch: bool)
      ensures this.outputs == outputs && this.multiBatch == multiBatch
    {
      this.outputs, this.multiBatch := outputs, multiBatch;
    }

    // UpdateOutputDesc; an index out of range has no effect.
    method UpdateOutputDesc(i: nat, t: Tensor)
      modifies this
      ensures outputs == if i < |old(outputs)| then old(outputs)[i := t] else old(outputs)
    {
      if i < |outputs| {
        outputs := outputs[i := t];
      }
    }

    method JoinSlot(ts: seq<Tensor>) returns (r: Joining)
      requires ts != []
      ensures r == JoinFrom(ts[0], ts)
    {
      var acc := ts[0];
      var k := 0;
      while k < |ts|
        invariant k <= |ts| && JoinFrom(ts[0], ts) == JoinFrom(acc, ts[k..])
      {
        assert ts[k..][0] == ts[k] && ts[k..][1..] == ts[k + 1..];
        if acc.dtype != ts[k].dtype {
          return Mismatch;
        }
        if |ts[k].dims| != |acc.dims| {
          return Join(acc.(dims := UNKNOWN_RANK));
        }
        var dims := acc.dims;
        for j := 0 to |acc.dims|
          invariant |dims| == |acc.dims| && dims[j..] == acc.dims[j..]
          invariant dims[..j] == JoinDims(acc.dims, ts[k].dims)[..j]
        {
          assert dims[j] == dims[j..][0] == acc.dims[j];
          if dims[j] != ts[k].dims[j] {
            dims := dims[j := UNKNOWN_DIM];
          }
          assert dims[..j + 1] == dims[..j] + [dims[j]];
        }
        assert dims == dims[..|acc.dims|] &&
          JoinDims(acc.dims, ts[k].dims)[..|acc.dims|] == JoinDims(acc.dims, ts[k].dims);
        acc := acc.(dims := dims);
        k := k + 1;
      }
      return Join(acc);
    }

    // A node with several batches takes the largest branch, any other node
    // the join of the branches.
    method UpdateParentNodeForBranch(outs: seq<seq<Tensor>>) returns (ok: bool)
      requires multiBatch ==> NoZeroDims(outs)
      modifies this
      ensures multiBatch ==> (ok <==> Comparable(outs)) && (ok ==> Enlarged(old(outputs), outs, outputs))
      ensures !multiBatch ==> (ok <==> Joinable(outs)) && (ok ==> Joined(old(outputs), outs, outputs))
    {
      hide Joinable, Joined, Comparable, Enlarged, NoZeroDims;
      if multiBatch {
        ok := UpdataOutputForMultiBatcch(outs);
      } else {
        ok := JoinBranches(outs);
      }
    }

    // An error leaves the outputs behind it alone.
    method JoinBranches(outs: seq<seq<Tensor>>) returns (ok: bool)
      modifies this
      ensures ok <==> Joinable(outs)
      ensures ok ==> Joined(old(outputs), outs, outputs)
    {
      hide JoinFrom;
      for i := 0 to |outs|
        invariant forall k :: 0 <= k < i && outs[k] != [] ==> JoinFrom(outs[k][0], outs[k]).Join?
        invariant |outputs| == |old(outputs)|
        invariant forall k :: 0 <= k < |outputs| ==>
          outputs[k] == if k < i && outs[k] != [] then JoinFrom(outs[k][0], outs[k]).tensor else old(outputs)[k]
      {
        if outs[i] != [] {
          var r := JoinSlot(outs[i]);
          if r.Mismatch? {
            return false;
          }
          UpdateOutputDesc(i, r.tensor);
        }
      }
      ok := true;
    }

    // The size of a tensor, or 0 when it is not positive or too large.
    method SizeOf(t: Tensor) returns (size: int)
      requires forall j :: 0 <= j < |t.dims| ==> t.dims[j] != 0
      ensures size == if Sized(t) then Product(t.dims) else 0
      ensures Sized(t) ==> size >= 1
    {
      size := 1;
      for j := 0 to |t.dims|
        invariant AtLeast(t.dims[..j], 1) && size == Product(t.dims[..j]) && 1 <= size <= INT64_MAX
      {
        assert Front(t.dims[..j + 1]) == t.dims[..j];
        if Div(INT64_MAX, t.dims[j]) < size {
          TooLarge(t, j, size);
          return 0;
        }
        StillSmall(t.dims[j], size);
        size := size * t.dims[j];
      }
      assert t.dims[..|t.dims|] == t.dims;
    }

    // The first tensor of the largest size.
    method LargestOf(ts: seq<Tensor>) returns (ok: bool, best: nat)
      requires ts != [] && forall t, j :: t in ts && 0 <= j < |t.dims| ==> t.dims[j] != 0
      ensures ok <==> forall k :: 0 <= k < |ts| ==> ts[k].dtype == ts[0].dtype && Sized(ts[k])
      ensures ok ==> best < |ts|
      ensures ok ==> forall k :: 0 <= k < |ts| ==>
        Product(ts[k].dims) <= Product(ts[best].dims) && (k < best ==> Product(ts[k].dims) < Product(ts[best].dims))
    {
      var maxSize := 0;
      best := 0;
      for k := 0 to |ts|
        invariant forall i :: 0 <= i < k ==> ts[i].dtype == ts[0].dtype && Sized(ts[i])
        invariant best < |ts| && (k > 0 ==> best < k && maxSize == Product(ts[best].dims)) && (k == 0 ==> maxSize == 0)
        invariant forall i :: 0 <= i < k ==>
          Product(ts[i].dims) <= maxSize && (i < best ==> Product(ts[i].dims) < maxSize)
      {
        if ts[0].dtype != ts[k].dtype {
          return false, best;
        }
        assert ts[k] in ts;
        var size := SizeOf(ts[k]);
        if size == 0 {
          return false, best;
        }
        if size > maxSize {
          maxSize, best := size, k;
        }
      }
      ok := true;
    }

    method UpdataOutputForMultiBatcch(outs: seq<seq<Tensor>>) returns (ok: bool)
      requires NoZeroDims(outs)
      modifies this
      ensures ok <==> Comparable(outs)
      ensures ok ==> Enlarged(old(outputs), outs, outputs)
    {
      hide FirstLargest, Sized;
      for i := 0 to |outs|
        invariant |outputs| == |old(outputs)|
        invariant forall n, k :: 0 <= n < i && 0 <= k < |outs[n]| ==>
          outs[n][k].dtype == outs[n][0].dtype && Sized(outs[n][k])
        invariant forall n :: 0 <= n < |outputs| ==>
          if n < i && outs[n] != [] then FirstLargest(outputs[n], outs[n]) else outputs[n] == old(outputs)[n]
      {
        if outs[i] != [] {
          var best;
          ok, best := LargestOf(outs[i]);
          if !ok {
            return;
          }
          LargestIsFirst(outs[i], best);
          UpdateOutputDesc(i, outs[i][best]);
        }
      }
      ok := true;
    }

    // A loop: the inputs of the body are compared with the one output.
    method UpdateParentNodeForWhile(data: seq<seq<Tensor>>, outs: seq<seq<Tensor>>) returns (ok: bool, brush: bool)
      modifies this
      ensures ok <==> |data| == |outs| && forall i :: 0 <= i < |outs| ==>
        |outs[i]| == 1 && Compared(outs[i][0], data[i]) != Failed
      ensures ok ==> (brush <==> exists i :: 0 <= i < |outs| && Compared(outs[i][0], data[i]) == Varies)
      ensures ok ==> |outputs| == |old(outputs)|
      ensures ok ==> forall i :: 0 <= i < |outputs| ==>
        outputs[i] == if i < |outs| then LoopOutput(outs[i][0], data[i]) else old(outputs)[i]
    {
      brush := false;
      if |data| != |outs| {
        return false, false;
      }
      for i := 0 to |data|
        invariant forall k :: 0 <= k < i ==> |outs[k]| == 1
      {
        if |outs[i]| != 1 {
          return false, false;
        }
      }
      for i := 0 to |outs|
        invariant forall k :: 0 <= k < i ==> Compared(outs[k][0], data[k]) != Failed
        invariant brush <==> exists k :: 0 <= k < i && Compared(outs[k][0], data[k]) == Varies
        invariant |outputs| == |old(outputs)|
        invariant forall k :: 0 <= k < |outputs| ==>
          outputs[k] == if k < i then LoopOutput(outs[k][0], data[k]) else old(outputs)[k]
      {
        var c := CompareSlot(outs[i][0], data[i]);
        if c == Failed {
          return false, brush;
        }
        var out := outs[i][0];
        if c == Varies {
          out := out.(dims := UNKNOWN_RANK);
          brush := true;
        }
        UpdateOutputDesc(i, out);
      }
      ok := true;
    }

    method CompareSlot(out: Tensor, ts: seq<Tensor>) returns (c: Comparison)
      ensures c == Compared(out, ts)
    {
      for k := 0 to |ts|
        invariant Compared(out, ts) == Compared(out, ts[k..])
      {
        assert ts[k..][0] == ts[k] && ts[k..][1..] == ts[k + 1..];
        if out.dtype != ts[k].dtype {
          return Failed;
        }
        if ts[k].dims != out.dims {
          return Varies;
        }
      }
      c := Invariant;
    }
  }

  datatype Comparison = Failed | Invariant | Varies

  // The first tensor that differs decides; its element type counts first.
  function Compared(out: Tensor, ts: seq<Tensor>): Comparison {
    if ts == [] then Invariant
    else if out.dtype != ts[0].dtype then Failed
    else if ts[0].dims != out.dims then Varies
    else Compared(out, ts[1..])
  }

  function LoopOutput(out: Tensor, ts: seq<Tensor>): Tensor {
    if Compared(out, ts) == Varies then out.(dims := UNKNOWN_RANK) else out
  }

  lemma {:induction false} ComparedIs(out: Tensor, ts: seq<Tensor>)
    ensures Compared(out, ts) == Invariant <==> forall t :: t in ts ==> t == out
  {
    if ts != [] {
      ComparedIs(out, ts[1..]);
      assert forall t :: t in ts <==> t == ts[0] || t in ts[1..];
      assert ts[0] in ts;
      assert ts[0] == out <==> ts[0].dtype == out.dtype && ts[0].dims == out.dims;
    }
  }

  // ------------------------------------------------------ multiple batches

  predicate Sized(t: Tensor) {
    AtLeast(t.dims, 1) && Product(t.dims) <= INT64_MAX
  }

  ghost predicate FirstLargest(t: Tensor, ts: seq<Tensor>) {
    exists best :: 0 <= best < |ts| && t == ts[best] && forall k :: 0 <= k < |ts| ==>
      Product(ts[k].dims) <= Product(t.dims) && (k < best ==> Product(ts[k].dims) < Product(t.dims))
  }

  lemma LargestIsFirst(ts: seq<Tensor>, best: nat)
    requires best < |ts| && forall k :: 0 <= k < |ts| ==>
      Product(ts[k].dims) <= Product(ts[best].dims) && (k < best ==> Product(ts[k].dims) < Product(ts[best].dims))
    ensures FirstLargest(ts[best], ts)
  {
  }

  lemma TooLarge(t: Tensor, j: nat, size: int)
    requires j < |t.dims| && t.dims[j] != 0 && 1 <= size <= INT64_MAX && size == Product(t.dims[..j])
    requires AtLeast(t.dims[..j], 1) && Div(INT64_MAX, t.dims[j]) < size
    ensures !Sized(t)
  {
    if AtLeast(t.dims, 1) {
      ProductAbove(size, t.dims[j], INT64_MAX);
      assert Front(t.dims[..j + 1]) == t.dims[..j];
      PrefixProduct(t.dims, j + 1);
    }
  }

  lemma StillSmall(d: int, size: int)
    requires d != 0 && 1 <= size <= INT64_MAX && Div(INT64_MAX, d) >= size
    ensures d >= 1 && 1 <= size * d <= INT64_MAX
  {
    if d >= 1 {
      ProductAbove(size, d, INT64_MAX);
      Grows(size, d);
    }
  }

  // --------------------------------------------------- the join as a bound

  // A known rank, dimensions possibly unknown.
  predicate KnownRank(s: seq<int>) {
    forall j :: 0 <= j < |s| ==> s[j] >= UNKNOWN_DIM
  }

  predicate IsShape(s: seq<int>) {
    KnownRank(s) || s == UNKNOWN_RANK
  }

  // b says no more than a: any shape is below the unknown rank, any dimension
  // below the unknown dimension.
  predicate Below(a: seq<int>, b: seq<int>) {
    b == UNKNOWN_RANK
    || (a != UNKNOWN_RANK && |a| == |b| && forall j :: 0 <= j < |b| ==> b[j] == a[j] || b[j] == UNKNOWN_DIM)
  }

  ghost predicate UpperBound(b: seq<int>, ts: seq<Tensor>) {
    IsShape(b) && forall t :: t in ts ==> Below(t.dims, b)
  }

  ghost predicate LeastBound(b: seq<int>, ts: seq<Tensor>) {
    UpperBound(b, ts) && forall c :: UpperBound(c, ts) ==> Below(b, c)
  }

  ghost predicate SameType(ts: seq<Tensor>, dtype: string) {
    forall t :: t in ts ==> t.dtype == dtype && IsShape(t.dims)
  }

  // Tensors of unknown rank beside one-dimensional ones, and nothing else: the
  // unknown rank is written as one dimension, so the code does not notice.
  ghost predicate Confused(ts: seq<Tensor>) {
    && (forall t :: t in ts ==> |t.dims| == 1)
    && (exists t :: t in ts && t.dims == UNKNOWN_RANK) && (exists t :: t in ts && t.dims != UNKNOWN_RANK)
  }

  // The closed form: the rank must agree with all, and so must every dimension.
  ghost predicate AgreesWithAll(acc: seq<int>, ts: seq<Tensor>, j: nat)
    requires j < |acc|
  {
    forall t :: t in ts ==> |t.dims| == |acc| && t.dims[j] == acc[j]
  }

  lemma {:induction false} JoinFromIs(acc: Tensor, ts: seq<Tensor>)
    requires forall t :: t in ts ==> t.dtype == acc.dtype
    ensures JoinFrom(acc, ts).Join? && JoinFrom(acc, ts).tensor.dtype == acc.dtype
    ensures (exists t :: t in ts && |t.dims| != |acc.dims|) ==> JoinFrom(acc, ts).tensor.dims == UNKNOWN_RANK
    ensures (forall t :: t in ts ==> |t.dims| == |acc.dims|) ==>
      var r := JoinFrom(acc, ts).tensor.dims;
        |r| == |acc.dims| && forall j :: 0 <= j < |r| ==>
          r[j] == if AgreesWithAll(acc.dims, ts, j) then acc.dims[j] else UNKNOWN_DIM
    decreases |ts|
  {
    if ts != [] {
      var t, rest := ts[0], ts[1..];
      assert ts == [t] + rest && t in ts && forall x :: x in rest ==> x in ts;
      if |acc.dims| == |t.dims| {
        var next := acc.(dims := JoinDims(acc.dims, t.dims));
        JoinFromIs(next, rest);
        if exists x :: x in ts && |x.dims| != |acc.dims| {
          var x :| x in ts && |x.dims| != |acc.dims|;
          assert x in rest;
        } else {
          forall j | 0 <= j < |acc.dims|
            ensures JoinFrom(acc, ts).tensor.dims[j] ==
              if AgreesWithAll(acc.dims, ts, j) then acc.dims[j] else UNKNOWN_DIM
          {
            JoinedDim(acc, next, t, rest, j);
          }
        }
      }
    }
  }

  lemma JoinedDim(acc: Tensor, next: Tensor, t: Tensor, rest: seq<Tensor>, j: nat)
    requires j < |acc.dims| == |t.dims| && next.dims == JoinDims(acc.dims, t.dims)
    ensures acc.dims[j] == t.dims[j] ==>
      next.dims[j] == acc.dims[j] && (AgreesWithAll(next.dims, rest, j) <==> AgreesWithAll(acc.dims, [t] + rest, j))
    ensures acc.dims[j] != t.dims[j] ==> next.dims[j] == UNKNOWN_DIM && !AgreesWithAll(acc.dims, [t] + rest, j)
  {
    assert t in [t] + rest;
    assert forall x :: x in [t] + rest <==> x == t || x in rest;
  }

  // Over branches of one element type, the join is the least upper bound
  // exactly when the ranks are not confused.
  lemma JoinIsLeastBound(ts: seq<Tensor>)
    requires ts != [] && SameType(ts, ts[0].dtype)
    ensures JoinFrom(ts[0], ts).Join?
    ensures LeastBound(JoinFrom(ts[0], ts).tensor.dims, ts) <==> !Confused(ts)
  {
    JoinFromIs(ts[0], ts);
    assert ts[0] in ts;
    if exists t :: t in ts && |t.dims| != |ts[0].dims| {
      DifferentRanks(ts);
    } else if exists t :: t in ts && t.dims == UNKNOWN_RANK {
      UnknownAmongOne(ts);
    } else {
      KnownRanks(ts);
    }
  }

  lemma DifferentRanks(ts: seq<Tensor>)
    requires ts != [] && SameType(ts, ts[0].dtype) && exists t :: t in ts && |t.dims| != |ts[0].dims|
    ensures LeastBound(UNKNOWN_RANK, ts) && !Confused(ts)
  {
    assert ts[0] in ts;
    var t :| t in ts && |t.dims| != |ts[0].dims|;
    forall c | UpperBound(c, ts) ensures Below(UNKNOWN_RANK, c) {
      assert Below(t.dims, c) && Below(ts[0].dims, c);
    }
  }

  lemma UnknownAmongOne(ts: seq<Tensor>)
    requires ts != [] && SameType(ts, ts[0].dtype) && forall t :: t in ts ==> |t.dims| == |ts[0].dims|
    requires exists t :: t in ts && t.dims == UNKNOWN_RANK
    ensures JoinFrom(ts[0], ts).Join? && (LeastBound(JoinFrom(ts[0], ts).tensor.dims, ts) <==> !Confused(ts))
  {
    JoinFromIs(ts[0], ts);
    assert ts[0] in ts;
    var u :| u in ts && u.dims == UNKNOWN_RANK;
    var r := JoinFrom(ts[0], ts).tensor.dims;
    assert |r| == 1;
    if Confused(ts) {
      var k :| k in ts && k.dims != UNKNOWN_RANK;
      assert k.dims[0] != UNKNOWN_DIM_NUM by {
        assert IsShape(k.dims) && |k.dims| == 1;
      }
      assert !AgreesWithAll(ts[0].dims, ts, 0);
      assert !Below(u.dims, r);
    } else {
      assert forall t :: t in ts ==> t.dims == UNKNOWN_RANK;
      assert AgreesWithAll(ts[0].dims, ts, 0);
      assert r == UNKNOWN_RANK;
      forall c | UpperBound(c, ts) ensures Below(r, c) {
        assert Below(u.dims, c);
      }
    }
  }

  lemma KnownRanks(ts: seq<Tensor>)
    requires ts != [] && SameType(ts, ts[0].dtype) && forall t :: t in ts ==> |t.dims| == |ts[0].dims|
    requires forall t :: t in ts ==> t.dims != UNKNOWN_RANK
    ensures JoinFrom(ts[0], ts).Join? && LeastBound(JoinFrom(ts[0], ts).tensor.dims, ts) && !Confused(ts)
  {
    JoinFromIs(ts[0], ts);
    assert ts[0] in ts;
    var r := JoinFrom(ts[0], ts).tensor.dims;
    assert KnownRank(ts[0].dims);
    forall j | 0 <= j < |r| ensures r[j] >= UNKNOWN_DIM {
    }
    forall t | t in ts ensures Below(t.dims, r) {
      forall j | 0 <= j < |r| ensures r[j] == t.dims[j] || r[j] == UNKNOWN_DIM {
        assert AgreesWithAll(ts[0].dims, ts, j) ==> t.dims[j] == ts[0].dims[j];
      }
    }
    forall c | UpperBound(c, ts) ensures Below(r, c) {
      if c != UNKNOWN_RANK {
        LeastAmong(ts, r, c);
      }
    }
  }

  lemma LeastAmong(ts: seq<Tensor>, r: seq<int>, c: seq<int>)
    requires ts != [] && (forall t :: t in ts ==> |t.dims| == |ts[0].dims| && t.dims != UNKNOWN_RANK)
    requires UpperBound(c, ts) && c != UNKNOWN_RANK && |r| == |ts[0].dims| && KnownRank(r)
    requires forall j :: 0 <= j < |r| ==>
      r[j] == if AgreesWithAll(ts[0].dims, ts, j) then ts[0].dims[j] else UNKNOWN_DIM
    ensures Below(r, c)
  {
    assert ts[0] in ts && Below(ts[0].dims, c);
    forall j | 0 <= j < |c| ensures c[j] == r[j] || c[j] == UNKNOWN_DIM {
      if c[j] != UNKNOWN_DIM {
        forall t | t in ts ensures t.dims[j] == ts[0].dims[j] {
          assert Below(t.dims, c);
        }
        assert AgreesWithAll(ts[0].dims, ts, j);
      }
    }
  }

  // For branches of one element type neither their order nor their repetition
  // matters, whatever their shapes, the confused mixture included.
  lemma BranchOrder(ts: seq<Tensor>, us: seq<Tensor>)
    requires ts != [] && us != [] && (forall t :: t in ts <==> t in us)
    requires forall t :: t in ts ==> t.dtype == ts[0].dtype
    ensures JoinFrom(ts[0], ts).Join? && JoinFrom(ts[0], ts) == JoinFrom(us[0], us)
  {
    assert ts[0] in us && us[0] in ts;
    JoinFromIs(ts[0], ts);
    JoinFromIs(us[0], us);
    var a, b := JoinFrom(ts[0], ts).tensor.dims, JoinFrom(us[0], us).tensor.dims;
    if t :| t in ts && |t.dims| != |ts[0].dims| {
      assert exists u :: u in us && |u.dims| != |us[0].dims| by {
        assert t in us && ts[0] in us;
      }
    } else {
      forall j | 0 <= j < |a| ensures a[j] == b[j] {
        assert AgreesWithAll(ts[0].dims, ts, j) <==> AgreesWithAll(us[0].dims, us, j);
      }
    }
  }

  // Of several element types the order does matter: a difference of ranks that
  // is met first hides the error.
  lemma TypesInOrder(a: Tensor, b: Tensor, c: Tensor)
    requires a.dtype == b.dtype != c.dtype && |a.dims| != |b.dims|
    ensures JoinFrom(a, [a, b, c]) == Join(a.(dims := UNKNOWN_RANK)) && JoinFrom(a, [a, c, b]) == Mismatch
  {
    assert JoinDims(a.dims, a.dims) == a.dims;
    assert [a, b, c][1..] == [b, c] && [a, c, b][1..] == [c, b];
    assert JoinFrom(a, [a, b, c]) == JoinFrom(a, [b, c]);
    assert JoinFrom(a, [a, c, b]) == JoinFrom(a, [c, b]);
  }

  // A confused pair: the code answers one unknown dimension.
  lemma ConfusedPair()
    ensures var ts := [Tensor("float", [5]), Tensor("float", UNKNOWN_RANK)];
      Confused(ts) && JoinFrom(ts[0], ts) == Join(Tensor("float", [UNKNOWN_DIM]))
  {
    var ts := [Tensor("float", [5]), Tensor("float", UNKNOWN_RANK)];
    assert ts[0] in ts && ts[1] in ts;
    assert JoinDims([5], [5]) == [5] && JoinDims([5], UNKNOWN_RANK) == [UNKNOWN_DIM];
    assert ts[1..] == [ts[1]] && ts[1..][1..] == [];
    assert JoinFrom(ts[0], ts) == JoinFrom(ts[0], ts[1..]);
    assert JoinFrom(ts[0], [ts[1]]) == JoinFrom(Tensor("float", [UNKNOWN_DIM]), []);
  }
}
