/**
 * Vectors and matrices over exact reals: a vector is a sequence, a matrix a sequence of rows.
 *
 * Sums and inner products recurse from the last component, as the loops that compute them add one
 * component at a time. `Comb` is the linear combination of a list of vectors, so that applying a
 * transpose is combining rows (`CombDot`). Symmetry and definiteness are stated of the bilinear
 * form rather than of the entries.
 */
module LinearAlgebra {

  type Vec = seq<real>
  type Mat = seq<Vec>

  function Zeros(n: nat): (r: Vec)
    ensures |r| == n && forall i :: 0 <= i < n ==> r[i] == 0.0
  {
    seq(n, _ => 0.0)
  }

  function Add(x: Vec, y: Vec): (r: Vec)
    requires |x| == |y|
    ensures |r| == |x| && forall i :: 0 <= i < |x| ==> r[i] == x[i] + y[i]
  {
    seq(|x|, i requires 0 <= i < |x| => x[i] + y[i])
  }

  function Sub(x: Vec, y: Vec): (r: Vec)
    requires |x| == |y|
    ensures |r| == |x| && forall i :: 0 <= i < |x| ==> r[i] == x[i] - y[i]
  {
    seq(|x|, i requires 0 <= i < |x| => x[i] - y[i])
  }

  function Scale(k: real, x: Vec): (r: Vec)
    ensures |r| == |x| && forall i :: 0 <= i < |x| ==> r[i] == k * x[i]
  {
    seq(|x|, i requires 0 <= i < |x| => k * x[i])
  }

  function Sum(x: Vec): real {
    if |x| == 0 then 0.0 else Sum(x[..|x| - 1]) + x[|x| - 1]
  }

  /** The componentwise product. */
  function Products(x: Vec, y: Vec): (r: Vec)
    requires |x| == |y|
    ensures |r| == |x| && forall i :: 0 <= i < |x| ==> r[i] == x[i] * y[i]
  {
    seq(|x|, i requires 0 <= i < |x| => x[i] * y[i])
  }

  function Dot(x: Vec, y: Vec): real
    requires |x| == |y|
  {
    Sum(Products(x, y))
  }

  /** Every element of `vs` has `n` components. */
  ghost predicate Dim(vs: seq<Vec>, n: nat) {
    forall i :: 0 <= i < |vs| ==> |vs[i]| == n
  }

  ghost predicate IsMat(a: Mat, rows: nat, cols: nat) {
    |a| == rows && Dim(a, cols)
  }

  /** The linear combination of `vs` with the coefficients `c`. */
  function Comb(c: Vec, vs: seq<Vec>, n: nat): (r: Vec)
    requires |c| == |vs| && Dim(vs, n)
    ensures |r| == n
  {
    if |c| == 0 then Zeros(n)
    else
      var k := |c| - 1;
      Add(Comb(c[..k], vs[..k], n), Scale(c[k], vs[k]))
  }

  function MatVec(a: Mat, x: Vec): (r: Vec)
    requires Dim(a, |x|)
    ensures |r| == |a| && forall i :: 0 <= i < |a| ==> r[i] == Dot(a[i], x)
  {
    seq(|a|, i requires 0 <= i < |a| => Dot(a[i], x))
  }

  function MapMat(a: Mat, vs: seq<Vec>, n: nat): (r: seq<Vec>)
    requires Dim(a, n) && Dim(vs, n)
    ensures |r| == |vs| && Dim(r, |a|)
    ensures forall i :: 0 <= i < |vs| ==> r[i] == MatVec(a, vs[i])
  {
    seq(|vs|, i requires 0 <= i < |vs| => MatVec(a, vs[i]))
  }

  function ZeroMat(rows: nat, cols: nat): (r: Mat)
    ensures IsMat(r, rows, cols)
    ensures forall i, j :: 0 <= i < rows && 0 <= j < cols ==> r[i][j] == 0.0
  {
    seq(rows, _ => Zeros(cols))
  }

  function MatAdd(a: Mat, b: Mat, n: nat): (r: Mat)
    requires |a| == |b| && Dim(a, n) && Dim(b, n)
    ensures IsMat(r, |a|, n)
    ensures forall i :: 0 <= i < |a| ==> r[i] == Add(a[i], b[i])
  {
    seq(|a|, i requires 0 <= i < |a| => Add(a[i], b[i]))
  }

  function MatSub(a: Mat, b: Mat, n: nat): (r: Mat)
    requires |a| == |b| && Dim(a, n) && Dim(b, n)
    ensures IsMat(r, |a|, n)
    ensures forall i :: 0 <= i < |a| ==> r[i] == Sub(a[i], b[i])
  {
    seq(|a|, i requires 0 <= i < |a| => Sub(a[i], b[i]))
  }

  function MatScale(k: real, a: Mat, n: nat): (r: Mat)
    requires Dim(a, n)
    ensures IsMat(r, |a|, n)
    ensures forall i :: 0 <= i < |a| ==> r[i] == Scale(k, a[i])
  {
    seq(|a|, i requires 0 <= i < |a| => Scale(k, a[i]))
  }

  function Outer(x: Vec, y: Vec): (r: Mat)
    ensures IsMat(r, |x|, |y|)
    ensures forall i :: 0 <= i < |x| ==> r[i] == Scale(x[i], y)
  {
    seq(|x|, i requires 0 <= i < |x| => Scale(x[i], y))
  }

  function Column(a: Mat, n: nat, j: nat): (r: Vec)
    requires Dim(a, n) && j < n
    ensures |r| == |a| && forall i :: 0 <= i < |a| ==> r[i] == a[i][j]
  {
    seq(|a|, i requires 0 <= i < |a| => a[i][j])
  }

  function Transpose(a: Mat, n: nat): (r: Mat)
    requires Dim(a, n)
    ensures IsMat(r, n, |a|)
    ensures forall j :: 0 <= j < n ==> r[j] == Column(a, n, j)
  {
    seq(n, j requires 0 <= j < n => Column(a, n, j))
  }

  /** Row `i` of the product is the combination of the rows of `b` with the coefficients `a[i]`. */
  function MatMul(a: Mat, b: Mat, n: nat): (r: Mat)
    requires Dim(a, |b|) && Dim(b, n)
    ensures IsMat(r, |a|, n)
    ensures forall i :: 0 <= i < |a| ==> r[i] == Comb(a[i], b, n)
  {
    seq(|a|, i requires 0 <= i < |a| => Comb(a[i], b, n))
  }

  function Unit(n: nat, j: nat): (r: Vec)
    requires j < n
    ensures |r| == n && forall i :: 0 <= i < n ==> r[i] == if i == j then 1.0 else 0.0
  {
    seq(n, i => if i == j then 1.0 else 0.0)
  }

  function Identity(n: nat): (r: Mat)
    ensures IsMat(r, n, n)
    ensures forall i :: 0 <= i < n ==> r[i] == Unit(n, i)
  {
    seq(n, i requires 0 <= i < n => Unit(n, i))
  }

  // ---------------------------------------------------------------- inner products

  lemma Distribute(a: real, b: real, c: real)
    ensures a * (b + c) == a * b + a * c
  {
  }

  lemma Associate(a: real, b: real, c: real)
    ensures (a * b) * c == a * (b * c) == b * (a * c)
  {
  }

  lemma SameSign(a: real, b: real, p: real)
    requires p == a * b
    ensures (a > 0.0 && b > 0.0) || (a < 0.0 && b < 0.0) ==> p > 0.0
    ensures a == 0.0 ==> p == 0.0
  {
  }

  lemma SquareSign(a: real, p: real)
    requires p == a * a
    ensures p >= 0.0
    ensures a != 0.0 ==> p > 0.0
  {
    SameSign(a, a, p);
  }

  lemma {:induction false} SumAdd(x: Vec, y: Vec)
    requires |x| == |y|
    ensures Sum(Add(x, y)) == Sum(x) + Sum(y)
  {
    if |x| > 0 {
      var k := |x| - 1;
      assert Add(x, y)[..k] == Add(x[..k], y[..k]);
      SumAdd(x[..k], y[..k]);
    }
  }

  lemma {:induction false} SumScale(k: real, x: Vec)
    ensures Sum(Scale(k, x)) == k * Sum(x)
  {
    if |x| > 0 {
      var n := |x| - 1;
      var l, r := Scale(k, x)[..n], Scale(k, x[..n]);
      assert l == r by {
        forall i | 0 <= i < n
          ensures l[i] == r[i]
        {
          assert x[..n][i] == x[i];
        }
      }
      SumScale(k, x[..n]);
      Distribute(k, Sum(x[..n]), x[n]);
    }
  }

  lemma {:induction false} SumZeros(n: nat)
    ensures Sum(Zeros(n)) == 0.0
  {
    if n > 0 {
      assert Zeros(n)[..n - 1] == Zeros(n - 1);
      SumZeros(n - 1);
    }
  }

  lemma {:induction false} SumFront(x: Vec)
    requires |x| > 0
    ensures Sum(x) == x[0] + Sum(x[1..])
  {
    var k := |x| - 1;
    if k > 0 {
      SumFront(x[..k]);
      assert x[..k][1..] == x[1..][..k - 1];
    }
  }

  lemma {:induction false} SumNonNegative(x: Vec)
    requires forall i :: 0 <= i < |x| ==> x[i] >= 0.0
    ensures Sum(x) >= 0.0
    ensures Sum(x) == 0.0 ==> x == Zeros(|x|)
  {
    if |x| > 0 {
      var k := |x| - 1;
      SumNonNegative(x[..k]);
      assert x == x[..k] + [x[k]];
    }
  }

  lemma DotSymmetric(x: Vec, y: Vec)
    requires |x| == |y|
    ensures Dot(x, y) == Dot(y, x)
  {
    assert Products(x, y) == Products(y, x);
  }

  lemma DotAdd(x: Vec, y: Vec, z: Vec)
    requires |x| == |y| == |z|
    ensures Dot(x, Add(y, z)) == Dot(x, y) + Dot(x, z)
    ensures Dot(Add(y, z), x) == Dot(y, x) + Dot(z, x)
  {
    var l, r := Products(x, Add(y, z)), Add(Products(x, y), Products(x, z));
    forall i | 0 <= i < |x|
      ensures l[i] == r[i]
    {
      Distribute(x[i], y[i], z[i]);
    }
    assert l == r;
    SumAdd(Products(x, y), Products(x, z));
    DotSymmetric(x, Add(y, z));
    DotSymmetric(x, y);
    DotSymmetric(x, z);
  }

  lemma DotScale(k: real, x: Vec, y: Vec)
    requires |x| == |y|
    ensures Dot(Scale(k, x), y) == k * Dot(x, y)
    ensures Dot(x, Scale(k, y)) == k * Dot(x, y)
  {
    var l, r, m := Products(Scale(k, x), y), Scale(k, Products(x, y)), Products(x, Scale(k, y));
    forall i | 0 <= i < |x|
      ensures l[i] == r[i] == m[i]
    {
      Associate(k, x[i], y[i]);
      assert l[i] == (k * x[i]) * y[i];
      assert m[i] == x[i] * (k * y[i]);
    }
    assert l == r == m;
    SumScale(k, Products(x, y));
  }

  lemma DotSub(x: Vec, y: Vec, z: Vec)
    requires |x| == |y| == |z|
    ensures Dot(x, Sub(y, z)) == Dot(x, y) - Dot(x, z)
    ensures Dot(Sub(y, z), x) == Dot(y, x) - Dot(z, x)
  {
    assert y == Add(Sub(y, z), z);
    DotAdd(x, Sub(y, z), z);
  }

  lemma DotZeros(x: Vec)
    ensures Dot(x, Zeros(|x|)) == 0.0
    ensures Dot(Zeros(|x|), x) == 0.0
  {
    assert Products(x, Zeros(|x|)) == Zeros(|x|);
    assert Products(Zeros(|x|), x) == Zeros(|x|);
    SumZeros(|x|);
  }

  lemma ProductsInit(x: Vec, y: Vec)
    requires |x| == |y| > 0
    ensures Products(x, y)[..|x| - 1] == Products(x[..|x| - 1], y[..|x| - 1])
  {
    var k := |x| - 1;
    var l, r := Products(x, y)[..k], Products(x[..k], y[..k]);
    forall i | 0 <= i < k
      ensures l[i] == r[i]
    {
      assert x[..k][i] == x[i] && y[..k][i] == y[i];
    }
  }

  lemma ProductsTail(x: Vec, y: Vec)
    requires |x| == |y| > 0
    ensures Products(x, y)[1..] == Products(x[1..], y[1..])
  {
    var l, r := Products(x, y)[1..], Products(x[1..], y[1..]);
    forall i | 0 <= i < |x| - 1
      ensures l[i] == r[i]
    {
      assert x[1..][i] == x[i + 1] && y[1..][i] == y[i + 1];
    }
  }

  /** The inner product split at the last component. */
  lemma DotBack(x: Vec, y: Vec)
    requires |x| == |y| > 0
    ensures Dot(x, y) == Dot(x[..|x| - 1], y[..|x| - 1]) + x[|x| - 1] * y[|x| - 1]
  {
    hide Products;
    ProductsInit(x, y);
  }

  lemma DotBackWith(x: Vec, y: Vec, last: real)
    requires |x| == |y| > 0 && y[|y| - 1] == last
    ensures Dot(x, y) == Dot(x[..|x| - 1], y[..|x| - 1]) + x[|x| - 1] * last
  {
    hide Dot;
    DotBack(x, y);
  }

  /** The inner product split at the first component. */
  lemma DotNext(x: Vec, y: Vec, k: nat)
    requires |x| == |y| && k < |x|
    ensures Dot(x[..k + 1], y[..k + 1]) == Dot(x[..k], y[..k]) + x[k] * y[k]
  {
    hide Dot;
    DotBack(x[..k + 1], y[..k + 1]);
    assert x[..k + 1][..k] == x[..k] && y[..k + 1][..k] == y[..k];
  }

  lemma DotFront(x: Vec, y: Vec)
    requires |x| == |y| > 0
    ensures Dot(x, y) == x[0] * y[0] + Dot(x[1..], y[1..])
  {
    hide Products;
    SumFront(Products(x, y));
    ProductsTail(x, y);
  }

  lemma {:induction false} SumSingle(n: nat, j: nat, a: real)
    requires j < n
    ensures Sum(Scale(a, Unit(n, j))) == a
  {
    var k := n - 1;
    var u := Scale(a, Unit(n, j));
    if j == k {
      assert u[..k] == Zeros(k);
      SumZeros(k);
    } else {
      assert u[..k] == Scale(a, Unit(k, j));
      SumSingle(k, j, a);
    }
  }

  lemma DotUnit(n: nat, j: nat, x: Vec)
    requires j < n == |x|
    ensures Dot(Unit(n, j), x) == x[j]
    ensures Dot(x, Unit(n, j)) == x[j]
  {
    assert Products(x, Unit(n, j)) == Scale(x[j], Unit(n, j));
    SumSingle(n, j, x[j]);
    DotSymmetric(x, Unit(n, j));
  }

  lemma DotSelf(x: Vec)
    ensures Dot(x, x) >= 0.0
    ensures Dot(x, x) == 0.0 ==> x == Zeros(|x|)
  {
    var p := Products(x, x);
    forall i | 0 <= i < |x|
      ensures p[i] >= 0.0 && (x[i] != 0.0 ==> p[i] > 0.0)
    {
      SquareSign(x[i], p[i]);
    }
    SumNonNegative(p);
    assert p == Zeros(|x|) ==> forall i :: 0 <= i < |x| ==> x[i] == 0.0;
  }

  // ---------------------------------------------------------------- combinations

  /** Component `j` of a combination is the inner product with column `j`. */
  lemma {:induction false} CombAt(c: Vec, vs: seq<Vec>, n: nat, j: nat)
    requires |c| == |vs| && Dim(vs, n) && j < n
    ensures Comb(c, vs, n)[j] == Dot(c, Column(vs, n, j))
  {
    if |c| > 0 {
      var k := |c| - 1;
      assert Column(vs, n, j)[..k] == Column(vs[..k], n, j);
      CombAt(c[..k], vs[..k], n, j);
      DotBack(c, Column(vs, n, j));
      assert Comb(c, vs, n)[j] == Comb(c[..k], vs[..k], n)[j] + Scale(c[k], vs[k])[j];
      assert Column(vs, n, j)[k] == vs[k][j];
    } else {
      SumZeros(0);
    }
  }

  /** The adjoint law: combining rows is applying the transpose. */
  lemma {:induction false} CombDot(c: Vec, vs: seq<Vec>, y: Vec)
    requires |c| == |vs| && Dim(vs, |y|)
    ensures Dot(Comb(c, vs, |y|), y) == Dot(c, MatVec(vs, y))
  {
    hide Dot, MatVec;
    if |c| == 0 {
      DotZeros(y);
      DotZeros(c);
      assert c == Zeros(0) == MatVec(vs, y);
    } else {
      var k := |c| - 1;
      assert MatVec(vs, y)[..k] == MatVec(vs[..k], y);
      CombDot(c[..k], vs[..k], y);
      DotAdd(y, Comb(c[..k], vs[..k], |y|), Scale(c[k], vs[k]));
      DotScale(c[k], vs[k], y);
      DotBackWith(c, MatVec(vs, y), Dot(vs[k], y));
    }
  }

  lemma TransposeVec(a: Mat, n: nat, x: Vec)
    requires Dim(a, n) && |x| == |a|
    ensures MatVec(Transpose(a, n), x) == Comb(x, a, n)
  {
    forall j | 0 <= j < n
      ensures MatVec(Transpose(a, n), x)[j] == Comb(x, a, n)[j]
    {
      CombAt(x, a, n, j);
      DotSymmetric(x, Column(a, n, j));
    }
  }

  lemma MatMulVec(a: Mat, b: Mat, x: Vec)
    requires Dim(a, |b|) && Dim(b, |x|)
    ensures MatVec(MatMul(a, b, |x|), x) == MatVec(a, MatVec(b, x))
  {
    forall i | 0 <= i < |a|
      ensures MatVec(MatMul(a, b, |x|), x)[i] == MatVec(a, MatVec(b, x))[i]
    {
      CombDot(a[i], b, x);
    }
  }

  lemma MatAddVec(a: Mat, b: Mat, x: Vec)
    requires |a| == |b| && Dim(a, |x|) && Dim(b, |x|)
    ensures MatVec(MatAdd(a, b, |x|), x) == Add(MatVec(a, x), MatVec(b, x))
  {
    forall i | 0 <= i < |a|
      ensures MatVec(MatAdd(a, b, |x|), x)[i] == Add(MatVec(a, x), MatVec(b, x))[i]
    {
      DotAdd(x, a[i], b[i]);
    }
  }

  lemma MatSubVec(a: Mat, b: Mat, x: Vec)
    requires |a| == |b| && Dim(a, |x|) && Dim(b, |x|)
    ensures MatVec(MatSub(a, b, |x|), x) == Sub(MatVec(a, x), MatVec(b, x))
  {
    forall i | 0 <= i < |a|
      ensures MatVec(MatSub(a, b, |x|), x)[i] == Sub(MatVec(a, x), MatVec(b, x))[i]
    {
      DotSub(x, a[i], b[i]);
    }
  }

  lemma MatScaleVec(k: real, a: Mat, x: Vec)
    requires Dim(a, |x|)
    ensures MatVec(MatScale(k, a, |x|), x) == Scale(k, MatVec(a, x))
  {
    var l, r := MatVec(MatScale(k, a, |x|), x), Scale(k, MatVec(a, x));
    forall i | 0 <= i < |a|
      ensures l[i] == r[i]
    {
      DotScale(k, a[i], x);
    }
  }

  lemma OuterVec(x: Vec, y: Vec, z: Vec)
    requires |y| == |z|
    ensures MatVec(Outer(x, y), z) == Scale(Dot(y, z), x)
  {
    var l, r := MatVec(Outer(x, y), z), Scale(Dot(y, z), x);
    forall i | 0 <= i < |x|
      ensures l[i] == r[i]
    {
      DotScale(x[i], y, z);
      DotSymmetric(y, z);
      assert l[i] == x[i] * Dot(y, z);
      assert r[i] == Dot(y, z) * x[i];
    }
  }

  lemma ZeroMatVec(n: nat, x: Vec)
    ensures MatVec(ZeroMat(n, |x|), x) == Zeros(n)
  {
    forall i | 0 <= i < n
      ensures MatVec(ZeroMat(n, |x|), x)[i] == 0.0
    {
      assert ZeroMat(n, |x|)[i] == Zeros(|x|);
      DotZeros(x);
    }
  }

  lemma MatVecAdd(a: Mat, x: Vec, y: Vec)
    requires |x| == |y| && Dim(a, |x|)
    ensures MatVec(a, Add(x, y)) == Add(MatVec(a, x), MatVec(a, y))
    ensures MatVec(a, Sub(x, y)) == Sub(MatVec(a, x), MatVec(a, y))
  {
    forall i | 0 <= i < |a|
      ensures MatVec(a, Add(x, y))[i] == Add(MatVec(a, x), MatVec(a, y))[i]
      ensures MatVec(a, Sub(x, y))[i] == Sub(MatVec(a, x), MatVec(a, y))[i]
    {
      DotAdd(a[i], x, y);
      DotSub(a[i], x, y);
    }
  }

  lemma MatVecScale(a: Mat, k: real, x: Vec)
    requires Dim(a, |x|)
    ensures MatVec(a, Scale(k, x)) == Scale(k, MatVec(a, x))
  {
    forall i | 0 <= i < |a|
      ensures MatVec(a, Scale(k, x))[i] == Scale(k, MatVec(a, x))[i]
    {
      DotScale(k, a[i], x);
    }
  }

  lemma MatVecZeros(a: Mat, n: nat)
    requires Dim(a, n)
    ensures MatVec(a, Zeros(n)) == Zeros(|a|)
  {
    forall i | 0 <= i < |a|
      ensures MatVec(a, Zeros(n))[i] == 0.0
    {
      DotZeros(a[i]);
    }
  }

  /** A linear map distributes over a combination. */
  lemma {:induction false} MatVecComb(a: Mat, c: Vec, vs: seq<Vec>, n: nat)
    requires Dim(a, n) && |c| == |vs| && Dim(vs, n)
    ensures MatVec(a, Comb(c, vs, n)) == Comb(c, MapMat(a, vs, n), |a|)
  {
    if |c| == 0 {
      MatVecZeros(a, n);
    } else {
      var k := |c| - 1;
      assert MapMat(a, vs, n)[..k] == MapMat(a, vs[..k], n);
      MatVecComb(a, c[..k], vs[..k], n);
      MatVecAdd(a, Comb(c[..k], vs[..k], n), Scale(c[k], vs[k]));
      MatVecScale(a, c[k], vs[k]);
    }
  }

  lemma CombAdd(c: Vec, d: Vec, vs: seq<Vec>, n: nat)
    requires |c| == |d| == |vs| && Dim(vs, n)
    ensures Comb(Add(c, d), vs, n) == Add(Comb(c, vs, n), Comb(d, vs, n))
    ensures Comb(Sub(c, d), vs, n) == Sub(Comb(c, vs, n), Comb(d, vs, n))
  {
    forall j | 0 <= j < n
      ensures Comb(Add(c, d), vs, n)[j] == Add(Comb(c, vs, n), Comb(d, vs, n))[j]
      ensures Comb(Sub(c, d), vs, n)[j] == Sub(Comb(c, vs, n), Comb(d, vs, n))[j]
    {
      CombAt(c, vs, n, j);
      CombAt(d, vs, n, j);
      CombAt(Add(c, d), vs, n, j);
      CombAt(Sub(c, d), vs, n, j);
      DotAdd(Column(vs, n, j), c, d);
      DotSub(Column(vs, n, j), c, d);
    }
  }

  lemma CombUnits(w: Vec)
    ensures Comb(w, Identity(|w|), |w|) == w
  {
    hide Dot, Comb;
    var n := |w|;
    forall j | 0 <= j < n
      ensures Comb(w, Identity(n), n)[j] == w[j]
    {
      CombAt(w, Identity(n), n, j);
      assert Column(Identity(n), n, j) == Unit(n, j);
      DotUnit(n, j, w);
    }
  }

  /** A matrix is determined by how it acts. */
  lemma SameAction(a: Mat, b: Mat)
    requires IsMat(a, 6, 6) && IsMat(b, 6, 6)
    requires forall x: Vec :: |x| == 6 ==> MatVec(a, x) == MatVec(b, x)
    ensures a == b
  {
    hide Dot, MatVec, Unit;
    forall i, j | 0 <= i < 6 && 0 <= j < 6
      ensures a[i][j] == b[i][j]
    {
      DotUnit(6, j, a[i]);
      DotUnit(6, j, b[i]);
      assert MatVec(a, Unit(6, j))[i] == MatVec(b, Unit(6, j))[i];
    }
    assert forall i :: 0 <= i < 6 ==> a[i] == b[i];
  }

  // ---------------------------------------------------------------- symmetry and definiteness

  /** The matrix is its own adjoint. */
  ghost predicate Symmetric(a: Mat, n: nat)
    requires IsMat(a, n, n)
  {
    forall x: Vec, y: Vec :: |x| == n && |y| == n ==> Dot(x, MatVec(a, y)) == Dot(y, MatVec(a, x))
  }

  ghost predicate Semidefinite(a: Mat, n: nat)
    requires IsMat(a, n, n)
  {
    forall x: Vec :: |x| == n ==> Dot(x, MatVec(a, x)) >= 0.0
  }

  ghost predicate PositiveDefinite(a: Mat, n: nat)
    requires IsMat(a, n, n)
  {
    forall x: Vec :: |x| == n && x != Zeros(n) ==> Dot(x, MatVec(a, x)) > 0.0
  }

  lemma DefiniteIsSemidefinite(a: Mat, n: nat)
    requires IsMat(a, n, n) && PositiveDefinite(a, n)
    ensures Semidefinite(a, n)
  {
    hide Dot, MatVec;
    forall x: Vec | |x| == n
      ensures Dot(x, MatVec(a, x)) >= 0.0
    {
      if x == Zeros(n) {
        MatVecZeros(a, n);
        DotZeros(x);
      }
    }
  }

  /** Operator symmetry is equality with the transpose, entry by entry. */
  lemma SymmetricEntries(a: Mat, n: nat)
    requires IsMat(a, n, n)
    ensures Symmetric(a, n) <==> forall i, j :: 0 <= i < n && 0 <= j < n ==> a[i][j] == a[j][i]
  {
    hide Dot, MatVec;
    if Symmetric(a, n) {
      forall i, j | 0 <= i < n && 0 <= j < n
        ensures a[i][j] == a[j][i]
      {
        DotUnit(n, i, MatVec(a, Unit(n, j)));
        DotUnit(n, j, a[i]);
        DotUnit(n, j, MatVec(a, Unit(n, i)));
        DotUnit(n, i, a[j]);
      }
    }
    if forall i, j :: 0 <= i < n && 0 <= j < n ==> a[i][j] == a[j][i] {
      assert Transpose(a, n) == a by {
        forall j | 0 <= j < n
          ensures Transpose(a, n)[j] == a[j]
        {
          assert Column(a, n, j) == a[j];
        }
      }
      forall x: Vec, y: Vec | |x| == n && |y| == n
        ensures Dot(x, MatVec(a, y)) == Dot(y, MatVec(a, x))
      {
        CombDot(x, a, y);
        TransposeVec(a, n, x);
        DotSymmetric(y, MatVec(a, x));
      }
    }
  }
}
