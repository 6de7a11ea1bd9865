/** A Cholesky factorisation accepts exactly the matrices whose lower triangle, mirrored, is positive definite. */
module CorrelationMatrix {
  import opened Reals
  import opened LinearAlgebra

  const TOLERANCE: real := 0.000000000001

  ghost predicate IsSquareRoot(sqrt: real -> real) {
    forall x: real :: x > 0.0 ==> sqrt(x) > 0.0 && sqrt(x) * sqrt(x) == x
  }

  /** Entries in [-1, 1], a unit diagonal and symmetry, the last two up to the tolerance. */
  ghost predicate LooksLikeCorrelation(m: Mat, n: nat)
    requires IsMat(m, n, n)
  {
    && (forall i, j :: 0 <= i < n && 0 <= j < n ==> -1.0 <= m[i][j] <= 1.0)
    && (forall i :: 0 <= i < n ==> Abs(m[i][i] - 1.0) <= TOLERANCE)
    && (forall i, j :: 0 <= j < i < n ==> Abs(m[i][j] - m[j][i]) <= TOLERANCE)
  }

  /** The symmetric matrix given by the lower triangle, the only part the factorisation reads. */
  function FromLower(m: Mat, n: nat): (r: Mat)
    requires IsMat(m, n, n)
    ensures IsMat(r, n, n)
    ensures forall i, j :: 0 <= j <= i < n ==> r[i][j] == r[j][i] == m[i][j]
  {
    seq(n, i requires 0 <= i < n => seq(n, j requires 0 <= j < n => if j <= i then m[i][j] else m[j][i]))
  }

  // ---------------------------------------------------------------- the factor, row by row

  /** Entry (a, k) of the lower triangle has been computed when the loops stand at (i, j). */
  predicate Filled(a: nat, k: nat, i: nat, j: nat) {
    k <= a && (a < i || (a == i && k < j))
  }

  /**
   * The factor when the loops stand at (i, j): zero where not yet filled, a positive diagonal, and
   * inner products of its rows equal to the matrix wherever it is filled.
   */
  ghost predicate PartialFactor(l: Mat, m: Mat, n: nat, i: nat, j: nat)
    requires IsMat(m, n, n)
  {
    && IsMat(l, n, n)
    && (forall a: nat, k: nat :: a < n && k < n && !Filled(a, k, i, j) ==> l[a][k] == 0.0)
    && (forall a: nat :: a < n && Filled(a, a, i, j) ==> l[a][a] > 0.0)
    && (forall a: nat, b: nat :: a < n && b < n && Filled(a, b, i, j) ==> Dot(l[a], l[b]) == m[a][b])
  }

  /** A lower-triangular factor with positive diagonal whose product with its transpose has the given lower triangle. */
  ghost predicate IsCholesky(l: Mat, m: Mat, n: nat)
    requires IsMat(m, n, n)
  {
    && IsMat(l, n, n)
    && (forall a, k :: 0 <= a < k < n ==> l[a][k] == 0.0)
    && (forall a :: 0 <= a < n ==> l[a][a] > 0.0)
    && (forall a, b :: 0 <= b <= a < n ==> MatMul(l, Transpose(l, n), n)[a][b] == m[a][b])
  }

  function With(l: Mat, i: nat, j: nat, v: real): (r: Mat)
    requires i < |l| && j < |l[i]|
  {
    l[i := l[i][j := v]]
  }

  /** The vector that is `d` at component `i` and zero elsewhere. */
  function Single(n: nat, i: nat, d: real): (r: Vec)
    ensures |r| == n && forall k :: 0 <= k < n ==> r[k] == if k == i then d else 0.0
  {
    seq(n, k => if k == i then d else 0.0)
  }

  lemma DotSingle(x: Vec, i: nat, d: real)
    requires i < |x|
    ensures Dot(x, Single(|x|, i, d)) == d * x[i]
  {
    hide Dot;
    assert Single(|x|, i, d) == Scale(d, Unit(|x|, i)) by {
      UnitEntries(|x|, i);
    }
    DotScale(d, x, Unit(|x|, i));
    DotUnit(|x|, i, x);
  }

  lemma UnitEntries(n: nat, j: nat)
    requires j < n
    ensures forall k :: 0 <= k < n ==> Unit(n, j)[k] == if k == j then 1.0 else 0.0
  {
  }

  /** Replacing one component shifts an inner product by that component's change. */
  lemma DotReplace(x: Vec, y: Vec, j: nat, v: real)
    requires |x| == |y| && j < |x|
    ensures Dot(x[j := v], y) == Dot(x, y) + (v - x[j]) * y[j]
  {
    hide Dot;
    var e := Single(|x|, j, v - x[j]);
    assert x[j := v] == Add(x, e);
    DotAdd(y, x, e);
    DotSingle(y, j, v - x[j]);
    DotSymmetric(e, y);
  }

  /** Only the first `k` components count when one vector vanishes after them. */
  lemma {:induction false} DotPrefix(x: Vec, y: Vec, k: nat)
    requires |x| == |y| && k <= |x| && forall t :: k <= t < |x| ==> x[t] == 0.0
    ensures Dot(x, y) == Dot(x[..k], y[..k])
    decreases |x|
  {
    hide Dot;
    var n := |x|;
    if k == n {
      assert x[..k] == x && y[..k] == y;
    } else {
      DotBack(x, y);
      DotPrefix(x[..n - 1], y[..n - 1], k);
      assert x[..n - 1][..k] == x[..k] && y[..n - 1][..k] == y[..k];
    }
  }

  /** The sum that the innermost loop leaves is the matrix entry minus the rows' inner product so far. */
  method Remainder(l: Mat, m: Mat, n: nat, i: nat, j: nat) returns (sum: real)
    requires IsMat(m, n, n) && j <= i < n && PartialFactor(l, m, n, i, j)
    ensures sum == m[i][j] - Dot(l[i], l[j])
  {
    hide Dot;
    sum := m[i][j];
    NoComponents(l[i][..0], l[j][..0]);
    for k := 0 to j
      invariant sum == m[i][j] - Dot(l[i][..k], l[j][..k])
    {
      DotNext(l[i], l[j], k);
      sum := sum - l[i][k] * l[j][k];
    }
    DotPrefix(l[i], l[j], j);
  }

  lemma NoComponents(x: Vec, y: Vec)
    requires |x| == |y| == 0
    ensures Dot(x, y) == 0.0
  {
  }

  /** Storing the quotient below the diagonal fills one more entry. */
  lemma FillBelow(l: Mat, m: Mat, n: nat, i: nat, j: nat)
    requires IsMat(m, n, n) && j < i < n && PartialFactor(l, m, n, i, j)
    ensures l[j][j] > 0.0
    ensures PartialFactor(With(l, i, j, (m[i][j] - Dot(l[i], l[j])) / l[j][j]), m, n, i, j + 1)
  {
    hide Dot;
    assert Filled(j, j, i, j);
    var v := (m[i][j] - Dot(l[i], l[j])) / l[j][j];
    var next := With(l, i, j, v);
    assert v * l[j][j] == m[i][j] - Dot(l[i], l[j]);
    forall a: nat, b: nat | a < n && b < n && Filled(a, b, i, j + 1)
      ensures Dot(next[a], next[b]) == m[a][b]
    {
      assert next[b] == l[b];
      if a == i {
        DotReplace(l[i], l[b], j, v);
        if b < j {
          assert Filled(i, b, i, j) && l[b][j] == 0.0;
        }
      } else {
        assert Filled(a, b, i, j);
      }
    }
    forall a: nat, k: nat | a < n && k < n && !Filled(a, k, i, j + 1)
      ensures next[a][k] == 0.0
    {
      assert !Filled(a, k, i, j);
    }
  }

  /** Storing the square root on the diagonal completes the row. */
  lemma FillDiagonal(l: Mat, m: Mat, n: nat, i: nat, root: real)
    requires IsMat(m, n, n) && i < n && PartialFactor(l, m, n, i, i)
    requires root > 0.0 && root * root == m[i][i] - Dot(l[i], l[i])
    ensures PartialFactor(With(l, i, i, root), m, n, i + 1, 0)
  {
    hide Dot;
    var next := With(l, i, i, root);
    assert l[i][i] == 0.0;
    forall a: nat, b: nat | a < n && b < n && Filled(a, b, i + 1, 0)
      ensures Dot(next[a], next[b]) == m[a][b]
    {
      if a == i {
        DotReplace(l[i], next[b], i, root);
        if b == i {
          DotReplace(l[i], l[i], i, root);
          DotSymmetric(l[i], next[i]);
        } else {
          assert Filled(i, b, i, i) && l[b][i] == 0.0;
        }
      } else {
        assert Filled(a, b, i, i);
      }
    }
    forall a: nat, k: nat | a < n && k < n && !Filled(a, k, i + 1, 0)
      ensures next[a][k] == 0.0
    {
      assert !Filled(a, k, i, i);
    }
    forall a: nat | a < n && Filled(a, a, i + 1, 0)
      ensures next[a][a] > 0.0
    {
      if a < i {
        assert Filled(a, a, i, i);
      }
    }
  }

  // ---------------------------------------------------------------- the quadratic form

  /** Vectors that agree wherever `x` does not vanish have the same inner product with it. */
  lemma SameAgainst(x: Vec, y: Vec, z: Vec)
    requires |x| == |y| == |z| && forall b :: 0 <= b < |x| ==> x[b] == 0.0 || y[b] == z[b]
    ensures Dot(x, y) == Dot(x, z)
  {
    var p, q := Products(x, y), Products(x, z);
    forall b | 0 <= b < |x|
      ensures p[b] == q[b]
    {
      ZeroTimes(x[b], y[b]);
      ZeroTimes(x[b], z[b]);
    }
    assert p == q;
  }

  lemma ZeroTimes(a: real, b: real)
    ensures a == 0.0 ==> a * b == 0.0
  {
  }

  /** Row `a` of the matrix against `x`, when the row is the factor's inner products plus `s` at entry `i`. */
  lemma RowForm(row: Vec, l: Mat, n: nat, x: Vec, y: Vec, i: nat, s: real)
    requires |row| == |x| == |y| == n && IsMat(l, n, n) && i < n
    requires forall b :: 0 <= b < n && x[b] != 0.0 ==> row[b] == Dot(y, l[b]) + if b == i then s else 0.0
    ensures Dot(row, x) == Dot(y, Comb(x, l, n)) + s * x[i]
  {
    hide Dot;
    var g, e := MatVec(l, y), Single(n, i, s);
    CombDot(x, l, y);
    DotSymmetric(Comb(x, l, n), y);
    DotSymmetric(row, x);
    forall b | 0 <= b < n
      ensures x[b] == 0.0 || row[b] == Add(g, e)[b]
    {
      DotSymmetric(y, l[b]);
    }
    SameAgainst(x, row, Add(g, e));
    DotAdd(x, g, e);
    DotSingle(x, i, s);
  }

  /** Where `x` does not vanish, the matrix is the factor's product plus `s` at entry (i, i). */
  ghost predicate FactorsOn(h: Mat, l: Mat, n: nat, x: Vec, i: nat, s: real)
    requires IsMat(h, n, n) && IsMat(l, n, n) && |x| == n
  {
    forall a, b :: 0 <= a < n && 0 <= b < n && x[a] != 0.0 && x[b] != 0.0 ==>
      h[a][b] == Dot(l[a], l[b]) + if a == i && b == i then s else 0.0
  }

  lemma RowOfForm(h: Mat, l: Mat, n: nat, x: Vec, i: nat, s: real, a: nat)
    requires IsMat(h, n, n) && IsMat(l, n, n) && |x| == n && i < n && FactorsOn(h, l, n, x, i, s)
    requires a < n && x[a] != 0.0
    ensures Dot(h[a], x) == Dot(l[a], Comb(x, l, n)) + if a == i then s * x[i] else 0.0
  {
    hide Dot, Comb;
    if a == i {
      RowForm(h[a], l, n, x, l[a], i, s);
    } else {
      RowForm(h[a], l, n, x, l[a], i, 0.0);
      ZeroTimes(0.0, x[i]);
    }
  }

  /** The quadratic form is a square plus `s` times the square of component `i`. */
  lemma FormSplit(h: Mat, l: Mat, n: nat, x: Vec, i: nat, s: real)
    requires IsMat(h, n, n) && IsMat(l, n, n) && |x| == n && i < n && FactorsOn(h, l, n, x, i, s)
    ensures Dot(x, MatVec(h, x)) == Dot(Comb(x, l, n), Comb(x, l, n)) + (s * x[i]) * x[i]
  {
    hide Dot, Comb, FactorsOn;
    var w := Comb(x, l, n);
    var e := Single(n, i, s * x[i]);
    forall a | 0 <= a < n
      ensures x[a] == 0.0 || MatVec(h, x)[a] == Add(MatVec(l, w), e)[a]
    {
      if x[a] != 0.0 {
        RowOfForm(h, l, n, x, i, s, a);
      }
    }
    SameAgainst(x, MatVec(h, x), Add(MatVec(l, w), e));
    DotAdd(x, MatVec(l, w), e);
    CombDot(x, l, w);
    DotSingle(x, i, s * x[i]);
  }

  /** Rows with nothing right of the diagonal and a positive diagonal. */
  ghost predicate Triangular(vs: seq<Vec>, n: nat) {
    && Dim(vs, n) && |vs| <= n
    && (forall a, k :: 0 <= a < |vs| && a < k < n ==> vs[a][k] == 0.0)
    && forall a :: 0 <= a < |vs| ==> vs[a][a] > 0.0
  }

  lemma CombBeyond(c: Vec, vs: seq<Vec>, n: nat, k: nat)
    requires |c| == |vs| && Triangular(vs, n) && |vs| <= k < n
    ensures Comb(c, vs, n)[k] == 0.0
  {
    CombAt(c, vs, n, k);
    assert Column(vs, n, k) == Zeros(|vs|);
    DotZeros(c);
  }

  /** Triangular rows are independent. */
  lemma {:induction false} TriangularInjective(c: Vec, vs: seq<Vec>, n: nat)
    requires |c| == |vs| && Triangular(vs, n) && Comb(c, vs, n) == Zeros(n)
    ensures c == Zeros(|c|)
  {
    if |c| > 0 {
      var k := |c| - 1;
      LastCoefficient(c, vs, n);
      TriangularInjective(c[..k], vs[..k], n);
      assert c == c[..k] + [c[k]];
    }
  }

  lemma TriangularFront(vs: seq<Vec>, n: nat, k: nat)
    requires |vs| == k + 1 && Triangular(vs, n)
    ensures Dim(vs, n) && Triangular(vs[..k], n) && k < n == |vs[k]| && vs[k][k] > 0.0
  {
  }

  lemma LastCoefficient(c: Vec, vs: seq<Vec>, n: nat)
    requires |c| == |vs| > 0 && Triangular(vs, n) && Comb(c, vs, n) == Zeros(n)
    ensures c[|c| - 1] == 0.0 && Comb(c[..|c| - 1], vs[..|c| - 1], n) == Zeros(n)
  {
    hide Zeros, Scale, Add, Comb, Triangular;
    var k := |c| - 1;
    TriangularFront(vs, n, k);
    CombLast(c[..k], vs, n, c[k]);
    assert c == c[..k] + [c[k]];
    CombBeyond(c[..k], vs[..k], n, k);
    OnlyZero(Comb(c[..k], vs[..k], n), c[k], vs[k], k);
  }

  lemma OnlyZero(head: Vec, t: real, v: Vec, k: nat)
    requires |head| == |v| && Add(head, Scale(t, v)) == Zeros(|v|)
    requires k < |v| && head[k] == 0.0 && v[k] > 0.0
    ensures t == 0.0 && head == Zeros(|v|)
  {
    var sum := Add(head, Scale(t, v));
    NoFactor(t, v[k]);
    assert sum[k] == t * v[k];
    forall i | 0 <= i < |v|
      ensures head[i] == 0.0
    {
      ZeroTimes(t, v[i]);
      assert sum[i] == head[i] + t * v[i];
    }
    assert head == Zeros(|v|);
  }

  lemma NoFactor(a: real, b: real)
    requires b > 0.0
    ensures a * b == 0.0 ==> a == 0.0
  {
  }

  /** Subtracting the multiple of `w` that cancels component `k`. */
  lemma Peel(v: Vec, w: Vec, k: nat, t: real)
    requires |v| == |w| && k < |v| && t * w[k] == v[k]
    requires forall j :: k < j < |v| ==> v[j] == 0.0 && w[j] == 0.0
    ensures var rest := Sub(v, Scale(t, w));
            Add(rest, Scale(t, w)) == v && forall j :: k <= j < |v| ==> rest[j] == 0.0
  {
    var rest := Sub(v, Scale(t, w));
    assert Add(rest, Scale(t, w)) == v;
    forall j | k <= j < |v|
      ensures rest[j] == 0.0
    {
      assert rest[j] == v[j] - t * w[j];
    }
  }

  lemma CombLast(c: Vec, vs: seq<Vec>, n: nat, t: real)
    requires |c| + 1 == |vs| && Dim(vs, n)
    ensures Comb(c + [t], vs, n) == Add(Comb(c, vs[..|c|], n), Scale(t, vs[|c|]))
  {
    assert (c + [t])[..|c|] == c;
  }

  /** Triangular rows reach every vector that vanishes beyond them. */
  lemma {:induction false} TriangularReaches(vs: seq<Vec>, n: nat, v: Vec) returns (c: Vec)
    requires Triangular(vs, n) && |v| == n && forall k :: |vs| <= k < n ==> v[k] == 0.0
    ensures |c| == |vs| && Comb(c, vs, n) == v
    decreases |vs|
  {
    hide Scale, Sub, Add;
    if |vs| == 0 {
      c := [];
      assert v == Zeros(n);
    } else {
      var k := |vs| - 1;
      var t := v[k] / vs[k][k];
      Peel(v, vs[k], k, t);
      var init := TriangularReaches(vs[..k], n, Sub(v, Scale(t, vs[k])));
      c := init + [t];
      CombLast(init, vs, n, t);
    }
  }

  // ---------------------------------------------------------------- both directions

  /** A completed factor proves the matrix positive definite. */
  lemma FactoredIsDefinite(l: Mat, m: Mat, n: nat)
    requires IsMat(m, n, n) && PartialFactor(l, m, n, n, 0)
    ensures IsCholesky(l, m, n) && PositiveDefinite(FromLower(m, n), n)
  {
    hide IsCholesky, FromLower, MatVec, Dot;
    FactorIsCholesky(l, m, n);
    forall x: Vec | |x| == n && x != Zeros(n)
      ensures Dot(x, MatVec(FromLower(m, n), x)) > 0.0
    {
      PositiveAt(l, m, n, x);
    }
  }

  lemma FactorIsCholesky(l: Mat, m: Mat, n: nat)
    requires IsMat(m, n, n) && PartialFactor(l, m, n, n, 0)
    ensures IsCholesky(l, m, n)
  {
    hide Dot, MatMul, Transpose, PartialFactor;
    FullTriangular(l, m, n);
    forall a, b | 0 <= b <= a < n
      ensures MatMul(l, Transpose(l, n), n)[a][b] == m[a][b]
    {
      EntryBelow(l, m, n, a, b);
    }
  }

  lemma EntryBelow(l: Mat, m: Mat, n: nat, a: nat, b: nat)
    requires IsMat(m, n, n) && PartialFactor(l, m, n, n, 0) && b <= a < n
    ensures MatMul(l, Transpose(l, n), n)[a][b] == m[a][b]
  {
    hide Dot, MatMul, Transpose;
    FactorEntry(l, n, a, b);
    assert Filled(a, b, n, 0);
  }

  lemma FactorEntry(l: Mat, n: nat, a: nat, b: nat)
    requires IsMat(l, n, n) && a < n && b < n
    ensures MatMul(l, Transpose(l, n), n)[a][b] == Dot(l[a], l[b])
  {
    CombAt(l[a], Transpose(l, n), n, b);
    assert Column(Transpose(l, n), n, b) == l[b];
  }

  lemma PositiveAt(l: Mat, m: Mat, n: nat, x: Vec)
    requires IsMat(m, n, n) && PartialFactor(l, m, n, n, 0) && |x| == n && x != Zeros(n)
    ensures Dot(x, MatVec(FromLower(m, n), x)) > 0.0
  {
    hide Dot, Comb, FromLower;
    var h := FromLower(m, n);
    if n > 0 {
      forall a: nat, b: nat | a < n && b < n
        ensures h[a][b] == Dot(l[a], l[b])
      {
        FullEntry(l, m, n, a, b);
      }
      assert FactorsOn(h, l, n, x, 0, 0.0);
      FormSplit(h, l, n, x, 0, 0.0);
      ZeroTimes(0.0, x[0]);
      DotSelf(Comb(x, l, n));
      if Comb(x, l, n) == Zeros(n) {
        FullTriangular(l, m, n);
        TriangularInjective(x, l, n);
      }
    }
  }

  lemma FullEntry(l: Mat, m: Mat, n: nat, a: nat, b: nat)
    requires IsMat(m, n, n) && PartialFactor(l, m, n, n, 0) && a < n && b < n
    ensures FromLower(m, n)[a][b] == Dot(l[a], l[b])
  {
    hide Dot;
    var p, q := if a < b then b else a, if a < b then a else b;
    DotSymmetric(l[a], l[b]);
    assert Filled(p, q, n, 0);
  }

  lemma FullTriangular(l: Mat, m: Mat, n: nat)
    requires IsMat(m, n, n) && PartialFactor(l, m, n, n, 0)
    ensures IsMat(l, n, n) && Triangular(l, n)
  {
    assert forall a: nat :: a < n ==> Filled(a, a, n, 0);
  }

  /** A pivot that is not positive exhibits a direction in which the form is not positive. */
  lemma BadPivotIsIndefinite(l: Mat, m: Mat, n: nat, i: nat)
    requires IsMat(m, n, n) && i < n && PartialFactor(l, m, n, i, i)
    requires m[i][i] - Dot(l[i], l[i]) <= 0.0
    ensures !PositiveDefinite(FromLower(m, n), n)
  {
    hide Dot, Comb, FromLower;
    var h, s := FromLower(m, n), m[i][i] - Dot(l[i], l[i]);
    LeadingTriangular(l, m, n, i);
    var c := TriangularReaches(l[..i], n, Scale(-1.0, l[i]));
    var x := c + [1.0] + Zeros(n - i - 1);
    assert FactorsOn(h, l, n, x, i, s) by {
      forall a: nat, b: nat | a < n && b < n && x[a] != 0.0 && x[b] != 0.0
        ensures h[a][b] == Dot(l[a], l[b]) + if a == i && b == i then s else 0.0
      {
        LeadingEntry(l, m, n, i, a, b);
      }
    }
    FormSplit(h, l, n, x, i, s);
    CombVanishes(c, l, n, i);
    DotZeros(Zeros(n));
    assert x[i] == 1.0;
  }

  lemma LeadingTriangular(l: Mat, m: Mat, n: nat, i: nat)
    requires IsMat(m, n, n) && i < n && PartialFactor(l, m, n, i, i)
    ensures Triangular(l[..i], n)
    ensures forall k :: i <= k < n ==> Scale(-1.0, l[i])[k] == 0.0
    ensures forall a, k :: i < a < n && 0 <= k < n ==> l[a][k] == 0.0
  {
    assert forall a: nat :: a < i ==> Filled(a, a, i, i);
  }

  lemma LeadingEntry(l: Mat, m: Mat, n: nat, i: nat, a: nat, b: nat)
    requires IsMat(m, n, n) && a <= i < n && b <= i && PartialFactor(l, m, n, i, i)
    ensures FromLower(m, n)[a][b] == Dot(l[a], l[b]) + if a == i && b == i then m[i][i] - Dot(l[i], l[i]) else 0.0
  {
    hide Dot;
    var p, q := if a < b then b else a, if a < b then a else b;
    DotSymmetric(l[a], l[b]);
    if q < i {
      assert Filled(p, q, i, i);
    }
  }

  lemma CombVanishes(c: Vec, l: Mat, n: nat, i: nat)
    requires IsMat(l, n, n) && |c| == i < n && Comb(c, l[..i], n) == Scale(-1.0, l[i])
    requires forall a, k :: i < a < n && 0 <= k < n ==> l[a][k] == 0.0
    ensures Comb(c + [1.0] + Zeros(n - i - 1), l, n) == Zeros(n)
  {
    var head := c + [1.0];
    assert head[..i] == c && l[..i + 1][..i] == l[..i];
    assert Comb(head, l[..i + 1], n) == Zeros(n);
    CombPadded(head, l, n, i + 1);
  }

  lemma {:induction false} CombPadded(c: Vec, l: Mat, n: nat, k: nat)
    requires Dim(l, n) && |c| == k <= |l| && forall a, t :: k <= a < |l| && 0 <= t < n ==> l[a][t] == 0.0
    ensures Comb(c + Zeros(|l| - k), l, n) == Comb(c, l[..k], n)
    decreases |l|
  {
    var p := |l|;
    if k == p {
      assert c + Zeros(0) == c && l[..k] == l;
    } else {
      var x := c + Zeros(p - k);
      assert x[..p - 1] == c + Zeros(p - 1 - k) && l[..p - 1][..k] == l[..k];
      CombPadded(c, l[..p - 1], n, k);
      assert Comb(x, l, n) == Add(Comb(x[..p - 1], l[..p - 1], n), Scale(x[p - 1], l[p - 1]));
    }
  }

  // ---------------------------------------------------------------- the validator

  method ValidateEntries(m: Mat, n: nat) returns (ok: bool)
    requires IsMat(m, n, n)
    ensures ok <==> LooksLikeCorrelation(m, n)
  {
    for i := 0 to n
      invariant forall a, b :: 0 <= a < i && 0 <= b < n ==> -1.0 <= m[a][b] <= 1.0
      invariant forall a :: 0 <= a < i ==> Abs(m[a][a] - 1.0) <= TOLERANCE
    {
      for j := 0 to n
        invariant forall b :: 0 <= b < j ==> -1.0 <= m[i][b] <= 1.0
      {
        if !(-1.0 <= m[i][j] <= 1.0) {
          return false;
        }
      }
      if Abs(m[i][i] - 1.0) > TOLERANCE {
        return false;
      }
    }
    for i := 0 to n
      invariant forall a, b :: 0 <= b < a < i ==> Abs(m[a][b] - m[b][a]) <= TOLERANCE
    {
      for j := 0 to i
        invariant forall b :: 0 <= b < j ==> Abs(m[i][b] - m[b][i]) <= TOLERANCE
      {
        if Abs(m[i][j] - m[j][i]) > TOLERANCE {
          return false;
        }
      }
    }
    return true;
  }

  /**
   * Accepts exactly the matrices that look like a correlation and whose lower triangle gives a
   * positive definite matrix; on acceptance the loops have built its Cholesky factor.
   */
  method ValidateCorrelationMatrix(m: Mat, n: nat, sqrt: real -> real) returns (ok: bool, lower: Mat)
    requires IsMat(m, n, n) && IsSquareRoot(sqrt)
    ensures ok <==> LooksLikeCorrelation(m, n) && PositiveDefinite(FromLower(m, n), n)
    ensures ok ==> IsCholesky(lower, m, n)
  {
    hide Dot, PositiveDefinite, IsCholesky, FromLower;
    lower := ZeroMat(n, n);
    ok := ValidateEntries(m, n);
    if !ok {
      return;
    }
    for i := 0 to n
      invariant PartialFactor(lower, m, n, i, 0)
    {
      for j := 0 to i
        invariant PartialFactor(lower, m, n, i, j)
      {
        var sum := Remainder(lower, m, n, i, j);
        FillBelow(lower, m, n, i, j);
        lower := lower[i := lower[i][j := sum / lower[j][j]]];
      }
      var sum := Remainder(lower, m, n, i, i);
      if sum <= 0.0 {
        BadPivotIsIndefinite(lower, m, n, i);
        return false, lower;
      }
      FillDiagonal(lower, m, n, i, sqrt(sum));
      lower := lower[i := lower[i][i := sqrt(sum)]];
    }
    FactoredIsDefinite(lower, m, n);
  }
}
