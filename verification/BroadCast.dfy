// BroadCastInfer: the shape of an element-wise operation.
module BroadCast {

  datatype Shape = NoShape | Shape(dims: seq<int>)

  function Min(a: int, b: int): int {
    if a < b then a else b
  }

  function Max(a: int, b: int): int {
    if a < b then b else a
  }

  // Two dimensions go together when they agree or one of them is 1.
  predicate Agree(a: int, b: int) {
    a == b || (a == 1 && b > 1) || (b == 1 && a > 1)
  }

  // Dimension k counted from the right, if there is one.
  predicate Has(s: seq<int>, k: nat) {
    k < |s|
  }

  function FromRight(s: seq<int>, k: nat): int
    requires Has(s, k)
  {
    s[|s| - 1 - k]
  }

  // All dimensions that face each other go together.
  ghost predicate Fit(x: seq<int>, y: seq<int>) {
    forall k: nat {:trigger Has(x, k), Has(y, k)} :: Has(x, k) && Has(y, k) ==> Agree(FromRight(x, k), FromRight(y, k))
  }

  // z is the broadcast shape: facing dimensions give the larger, others stay.
  ghost predicate Covers(z: seq<int>, x: seq<int>, y: seq<int>) {
    && |z| == Max(|x|, |y|)
    && forall k: nat {:trigger Has(z, k)} :: Has(z, k) ==> FromRight(z, k) == DimOf(x, y, k)
  }

  function DimOf(x: seq<int>, y: seq<int>, k: nat): int
    requires k < |x| || k < |y|
  {
    if Has(x, k) && Has(y, k) then Max(FromRight(x, k), FromRight(y, k))
    else if Has(x, k) then FromRight(x, k)
    else FromRight(y, k)
  }

  // The specification: the shape exists exactly when the dimensions fit.
  function Joined(x: seq<int>, y: seq<int>): seq<int> {
    var n := Max(|x|, |y|);
    seq(n, i requires 0 <= i < n => DimOf(x, y, n - 1 - i))
  }

  ghost function BroadCastShape(x: seq<int>, y: seq<int>): Shape {
    if Fit(x, y) then Shape(Joined(x, y)) else NoShape
  }

  lemma JoinedIs(z: seq<int>, x: seq<int>, y: seq<int>)
    ensures Covers(z, x, y) <==> z == Joined(x, y)
  {
    if Covers(z, x, y) {
      forall i | 0 <= i < |z| ensures z[i] == Joined(x, y)[i] {
        assert Has(z, |z| - 1 - i);
        assert FromRight(z, |z| - 1 - i) == z[i];
      }
    }
  }

  // The longer shape first: its extra dimensions, then the facing pairs.
  method Aligned(longer: seq<int>, shorter: seq<int>) returns (r: Shape)
    requires |longer| >= |shorter|
    ensures r == BroadCastShape(longer, shorter)
  {
    var diff := |longer| - |shorter|;
    var y := [];
    for i := 0 to diff
      invariant y == longer[..i]
    {
      y := y + [longer[i]];
    }
    for i := 0 to |shorter|
      invariant |y| == diff + i && y[..diff] == longer[..diff]
      invariant forall j :: 0 <= j < i ==>
        Agree(longer[j + diff], shorter[j]) && y[j + diff] == Max(longer[j + diff], shorter[j])
    {
      if longer[i + diff] != shorter[i] && Min(longer[i + diff], shorter[i]) != 1 {
        NotFitting(longer, shorter, i);
        return NoShape;
      }
      y := y + [Max(longer[i + diff], shorter[i])];
    }
    forall k: nat | Has(longer, k) && Has(shorter, k) ensures Agree(FromRight(longer, k), FromRight(shorter, k)) {
      assert Agree(longer[|shorter| - 1 - k + diff], shorter[|shorter| - 1 - k]);
    }
    forall k: nat | Has(y, k) ensures FromRight(y, k) == DimOf(longer, shorter, k) {
      if k < |shorter| {
        assert y[|shorter| - 1 - k + diff] == Max(longer[|shorter| - 1 - k + diff], shorter[|shorter| - 1 - k]);
      } else {
        assert y[..diff][|y| - 1 - k] == longer[..diff][|y| - 1 - k];
      }
    }
    JoinedIs(y, longer, shorter);
    r := Shape(y);
  }

  lemma NotFitting(longer: seq<int>, shorter: seq<int>, i: nat)
    requires |longer| >= |shorter| > i && !Agree(longer[i + |longer| - |shorter|], shorter[i])
    ensures !Fit(longer, shorter)
  {
    var k := |shorter| - 1 - i;
    assert Has(longer, k) && Has(shorter, k);
    assert FromRight(longer, k) == longer[i + |longer| - |shorter|] && FromRight(shorter, k) == shorter[i];
  }

  method BroadCastInfer(x: seq<int>, y: seq<int>) returns (r: Shape)
    ensures r == BroadCastShape(x, y)
  {
    if x == [] {
      LeftIdentity(y);
      return Shape(y);
    }
    if y == [] {
      LeftIdentity(x);
      Commutes(x, y);
      return Shape(x);
    }
    if |x| >= |y| {
      r := Aligned(x, y);
    } else {
      r := Aligned(y, x);
      Commutes(x, y);
    }
  }

  // ------------------------------------------------------------ algebra

  ghost function Then(s: Shape, z: seq<int>): Shape {
    if s.NoShape? then NoShape else BroadCastShape(s.dims, z)
  }

  lemma Commutes(x: seq<int>, y: seq<int>)
    ensures BroadCastShape(x, y) == BroadCastShape(y, x)
  {
    assert Fit(x, y) ==> Fit(y, x) by { SwapFit(x, y); }
    assert Fit(y, x) ==> Fit(x, y) by { SwapFit(y, x); }
    SameSwapped(x, y);
  }

  lemma SameSwapped(x: seq<int>, y: seq<int>)
    ensures Joined(x, y) == Joined(y, x)
  {
    var a, b := Joined(x, y), Joined(y, x);
    assert |a| == |b|;
    forall i | 0 <= i < |a| ensures a[i] == b[i] {
      var k := |a| - 1 - i;
      assert DimOf(x, y, k) == DimOf(y, x, k);
    }
  }

  lemma SwapFit(x: seq<int>, y: seq<int>)
    ensures Fit(x, y) ==> Fit(y, x)
  {
  }

  lemma LeftIdentity(y: seq<int>)
    ensures BroadCastShape([], y) == Shape(y)
  {
    forall i | 0 <= i < |y| ensures Joined([], y)[i] == y[i] {
      assert FromRight(y, |y| - 1 - i) == y[i] == DimOf([], y, |y| - 1 - i);
    }
  }

  lemma Idempotent(x: seq<int>)
    ensures BroadCastShape(x, x) == Shape(x)
  {
    forall i | 0 <= i < |x| ensures Joined(x, x)[i] == x[i] {
      assert FromRight(x, |x| - 1 - i) == x[i] == DimOf(x, x, |x| - 1 - i);
    }
  }

  // Whether three shapes fit does not depend on the order of joining.
  ghost predicate AllFit(x: seq<int>, y: seq<int>, z: seq<int>) {
    Fit(x, y) && Fit(y, z) && Fit(x, z)
  }

  lemma FitsJoined(x: seq<int>, y: seq<int>, z: seq<int>)
    requires Fit(x, y)
    ensures Fit(Joined(x, y), z) <==> Fit(x, z) && Fit(y, z)
  {
    var j := Joined(x, y);
    JoinedIs(j, x, y);
    if Fit(j, z) {
      forall k: nat | Has(x, k) && Has(z, k) ensures Agree(FromRight(x, k), FromRight(z, k)) {
        assert Has(j, k);
        assert Has(y, k) ==> Agree(FromRight(x, k), FromRight(y, k));
      }
      forall k: nat | Has(y, k) && Has(z, k) ensures Agree(FromRight(y, k), FromRight(z, k)) {
        assert Has(j, k);
        assert Has(x, k) ==> Agree(FromRight(x, k), FromRight(y, k));
      }
    }
    if Fit(x, z) && Fit(y, z) {
      forall k: nat | Has(j, k) && Has(z, k) ensures Agree(FromRight(j, k), FromRight(z, k)) {
        assert Has(x, k) ==> Agree(FromRight(x, k), FromRight(z, k));
        assert Has(y, k) ==> Agree(FromRight(y, k), FromRight(z, k));
      }
    }
  }

  // Failure included, broadcasting is associative on all shapes.
  lemma Associates(x: seq<int>, y: seq<int>, z: seq<int>)
    ensures Then(BroadCastShape(x, y), z) == Then(BroadCastShape(y, z), x)
    ensures Then(BroadCastShape(x, y), z).Shape? <==> AllFit(x, y, z)
  {
    SwapFit(x, y);
    SwapFit(y, x);
    SwapFit(x, z);
    SwapFit(z, x);
    if Fit(x, y) {
      FitsJoined(x, y, z);
    }
    if Fit(y, z) {
      FitsJoined(y, z, x);
    }
    if AllFit(x, y, z) {
      SameJoined(x, y, z);
    }
  }

  lemma SameJoined(x: seq<int>, y: seq<int>, z: seq<int>)
    ensures Joined(Joined(x, y), z) == Joined(Joined(y, z), x)
  {
    var a, b := Joined(x, y), Joined(y, z);
    JoinedIs(a, x, y);
    JoinedIs(b, y, z);
    JoinedIs(Joined(a, z), a, z);
    JoinedIs(Joined(b, x), b, x);
    var l, r := Joined(a, z), Joined(b, x);
    assert |l| == |r|;
    forall i | 0 <= i < |l| ensures l[i] == r[i] {
      var k := |l| - 1 - i;
      assert Has(l, k) && Has(r, k);
      assert l[i] == FromRight(l, k) && r[i] == FromRight(r, k);
      assert Has(a, k) ==> FromRight(a, k) == DimOf(x, y, k);
      assert Has(b, k) ==> FromRight(b, k) == DimOf(y, z, k);
    }
  }
}
