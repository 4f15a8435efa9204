// Products of dimensions in 64-bit integers.
module Products {
  import opened Links

  const INT64_MIN: int := -0x8000_0000_0000_0000
  const INT64_MAX: int := 0x7FFF_FFFF_FFFF_FFFF
  const UNKNOWN_DIM: int := -1
  const UNKNOWN_DIM_NUM: int := -2
  const UNKNOWN_RANK: seq<int> := [UNKNOWN_DIM_NUM]

  predicate Fits(x: int) {
    INT64_MIN <= x <= INT64_MAX
  }

  // C++ division: towards zero.
  function Div(a: int, b: int): int
    requires b != 0
  {
    if (a >= 0) == (b > 0) then Abs(a) / Abs(b) else -(Abs(a) / Abs(b))
  }

  function Abs(x: int): nat {
    if x < 0 then -x else x
  }

  predicate Int64MulNotOverflow(a: int, b: int) {
    if a > 0 then
      if b > 0 then !(a > Div(INT64_MAX, b)) else !(b < Div(INT64_MIN, a))
    else
      if b > 0 then !(a < Div(INT64_MIN, b)) else !(a != 0 && b < Div(INT64_MAX, a))
  }

  lemma ProductAbove(x: nat, y: nat, m: nat)
    requires y > 0
    ensures x > m / y <==> x * y > m
  {
    var q, r := m / y, m % y;
    assert m == q * y + r;
    if x > q {
      assert x * y >= (q + 1) * y by { Multiply(q + 1, x, y); }
    } else {
      assert x * y <= q * y by { Multiply(x, q, y); }
    }
  }

  lemma Multiply(a: int, b: int, y: nat)
    requires a <= b
    ensures a * y <= b * y
  {
  }

  lemma Signs(a: int, b: int)
    ensures (-a) * (-b) == a * b && (-a) * b == -(a * b) && a * (-b) == -(a * b)
  {
  }

  // The test is exact: it passes when and only when the product fits.
  lemma MulTestExact(a: int, b: int)
    requires Fits(a) && Fits(b)
    ensures Int64MulNotOverflow(a, b) <==> Fits(a * b)
  {
    Signs(a, b);
    if a > 0 && b > 0 {
      ProductAbove(a, b, INT64_MAX);
      Multiply(0, a, b);
    } else if a > 0 {
      ProductAbove(-b, a, -INT64_MIN);
      Multiply(0, -b, a);
    } else if b > 0 {
      ProductAbove(-a, b, -INT64_MIN);
      Multiply(0, -a, b);
    } else if a != 0 {
      ProductAbove(-b, -a, INT64_MAX);
      Multiply(0, -b, -a);
    }
  }

  // ------------------------------------------------------- shape sizes

  predicate AtLeast(dims: seq<int>, m: int) {
    forall i :: 0 <= i < |dims| ==> dims[i] >= m
  }

  function Product(dims: seq<int>): int {
    if dims == [] then 1 else Product(Front(dims)) * Last(dims)
  }

  lemma {:induction false} PositiveProduct(dims: seq<int>)
    requires AtLeast(dims, 1)
    ensures Product(dims) >= 1
  {
    if dims != [] {
      FrontLast(dims);
      PositiveProduct(Front(dims));
      Grows(Product(Front(dims)), Last(dims));
    }
  }

  lemma {:induction false} PrefixProduct(dims: seq<int>, k: nat)
    requires k <= |dims| && AtLeast(dims, 1)
    ensures Product(dims[..k]) <= Product(dims)
    decreases |dims|
  {
    if k == |dims| {
      assert dims[..k] == dims;
    } else {
      FrontLast(dims);
      assert Front(dims)[..k] == dims[..k];
      PrefixProduct(Front(dims), k);
      PositiveProduct(Front(dims));
      Grows(Product(Front(dims)), Last(dims));
    }
  }

  lemma Grows(x: int, d: int)
    requires x >= 1 && d >= 1
    ensures x * d >= x
  {
  }

  lemma {:induction false} ZeroProduct(dims: seq<int>)
    requires 0 in dims
    ensures Product(dims) == 0
  {
    FrontLast(dims);
    if 0 in Front(dims) {
      ZeroProduct(Front(dims));
    }
  }

  lemma {:induction false} NonNegative(dims: seq<int>)
    requires AtLeast(dims, 0)
    ensures Product(dims) >= 0
  {
    if dims != [] {
      FrontLast(dims);
      NonNegative(Front(dims));
      Multiply(0, Product(Front(dims)), Last(dims));
    }
  }

  // A prefix overflows only when the product does, or when a later zero makes
  // the product zero.
  lemma OverflowIsFinal(dims: seq<int>, k: nat)
    requires k <= |dims| && AtLeast(dims, 0) && Product(dims[..k]) > INT64_MAX
    ensures Product(dims) > INT64_MAX || Product(dims) == 0
  {
    if 0 in dims {
      ZeroProduct(dims);
    } else {
      assert forall i :: 0 <= i < |dims| ==> dims[i] in dims;
      PrefixProduct(dims, k);
    }
  }

  predicate UnknownDim(d: int) {
    d == UNKNOWN_DIM || d == UNKNOWN_DIM_NUM
  }

  // The first k dimensions are known and none of their products overflows.
  ghost predicate Clear(dims: seq<int>, k: nat) {
    k <= |dims| && forall i :: 0 <= i < k ==> !UnknownDim(dims[i]) && Fits(Product(dims[..i + 1]))
  }

  // Shape::GetShapeSize: whichever comes first decides, an unknown dimension
  // or a product that does not fit.
  method GetShapeSize(dims: seq<int>) returns (size: int)
    requires forall d :: d in dims ==> Fits(d)
    ensures dims == [] ==> size == 0
    ensures dims != [] && Clear(dims, |dims|) ==> size == Product(dims)
    ensures forall k :: 0 <= k < |dims| && Clear(dims, k) && UnknownDim(dims[k]) ==> size == -1
    ensures forall k :: 0 <= k < |dims| && Clear(dims, k) && !UnknownDim(dims[k]) && !Fits(Product(dims[..k + 1])) ==>
      size == 0
    // So for known dimensions it is their product, or 0 when that does not fit.
    ensures dims != [] && AtLeast(dims, 0) ==> size == if Product(dims) <= INT64_MAX then Product(dims) else 0
  {
    hide Product, Int64MulNotOverflow;
    if dims == [] {
      return 0;
    }
    size := 1;
    ProductStarts(dims);
    for k := 0 to |dims|
      invariant size == Product(dims[..k]) && Fits(size) && Clear(dims, k)
    {
      ProductNext(dims, k);
      assert dims[k] in dims;
      if dims[k] == UNKNOWN_DIM_NUM || dims[k] == UNKNOWN_DIM {
        return -1;
      }
      MulTestExact(size, dims[k]);
      if !Int64MulNotOverflow(size, dims[k]) {
        OverflowAt(dims, k + 1);
        return 0;
      }
      size := size * dims[k];
      ClearNext(dims, k);
    }
    assert dims[..|dims|] == dims;
  }

  lemma ClearNext(dims: seq<int>, k: nat)
    requires k < |dims| && Clear(dims, k) && !UnknownDim(dims[k]) && Fits(Product(dims[..k + 1]))
    ensures Clear(dims, k + 1)
  {
    hide Product, UnknownDim, Fits;
    forall i | 0 <= i < k + 1 ensures !UnknownDim(dims[i]) && Fits(Product(dims[..i + 1])) {
      if i != k {
        assert !UnknownDim(dims[i]);
      }
    }
  }

  lemma ProductStarts(dims: seq<int>)
    ensures Product(dims[..0]) == 1 && Fits(1)
  {
  }

  lemma ProductNext(dims: seq<int>, k: nat)
    requires k < |dims|
    ensures Product(dims[..k + 1]) == Product(dims[..k]) * dims[k]
  {
    assert Front(dims[..k + 1]) == dims[..k];
  }

  lemma OverflowAt(dims: seq<int>, k: nat)
    requires k <= |dims| && !Fits(Product(dims[..k]))
    ensures AtLeast(dims, 0) ==> Product(dims) > INT64_MAX || Product(dims) == 0
  {
    if AtLeast(dims, 0) {
      NonNegative(dims[..k]);
      OverflowIsFinal(dims, k);
    }
  }
}
