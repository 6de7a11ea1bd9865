/** The quadratic form of the correlation matrix that is stored, against the one that the factorisation tests. */
module CorrelationForm {
  import opened Reals
  import opened LinearAlgebra
  import opened CorrelationMatrix

  /** Zero on and below the diagonal, and no entry above it beyond the tolerance. */
  ghost predicate StrictUpper(e: Mat, n: nat, tol: real)
    requires IsMat(e, n, n)
  {
    && (forall i, j :: 0 <= j <= i < n ==> e[i][j] == 0.0)
    && forall i, j :: 0 <= i < j < n ==> -tol <= e[i][j] <= tol
  }

  /** How far `n` components whose squares sum to `s` can move the form. */
  function Margin(tol: real, n: nat, s: real): real {
    0.5 * tol * (n as real - 1.0) * s
  }

  /** The same for one more component `z` against those. */
  function CrossMargin(tol: real, n: nat, s: real, z: real): real {
    0.5 * tol * (s + n as real * (z * z))
  }

  lemma MarginNext(tol: real, n: nat, s: real, z: real)
    ensures Margin(tol, n, s) + CrossMargin(tol, n, s, z) == Margin(tol, n + 1, s + z * z)
  {
    assert (n + 1) as real == n as real + 1.0;
  }

  lemma MarginSum(tol: real, n: nat, s: real, z: real, square: real)
    requires square == s + z * z
    ensures Margin(tol, n, s) + CrossMargin(tol, n, s, z) == Margin(tol, n + 1, square)
  {
    MarginNext(tol, n, s, z);
  }

  lemma CrossMarginNext(tol: real, n: nat, s: real, z: real, a: real)
    ensures CrossMargin(tol, n, s, z) + 0.5 * tol * (z * z + a * a) == CrossMargin(tol, n + 1, s + a * a, z)
  {
    assert (n + 1) as real == n as real + 1.0;
  }

  lemma ProductBound(p: real, c: real, q: real, tol: real)
    requires -q <= p <= q && -tol <= c <= tol
    ensures -(q * tol) <= p * c <= q * tol
  {
    NonNegativeProduct(q - p, tol + c);
    NonNegativeProduct(q + p, tol - c);
    NonNegativeProduct(q - p, tol - c);
    NonNegativeProduct(q + p, tol + c);
  }

  lemma PairBound(z: real, a: real, c: real, tol: real)
    requires -tol <= c <= tol
    ensures -(0.5 * tol * (z * z + a * a)) <= z * (a * c) <= 0.5 * tol * (z * z + a * a)
  {
    var p, q := z * a, 0.5 * (z * z + a * a);
    SquareSign(z - a, (z - a) * (z - a));
    SquareSign(z + a, (z + a) * (z + a));
    ProductBound(p, c, q, tol);
    assert z * (a * c) == p * c && q * tol == 0.5 * tol * (z * z + a * a);
  }

  lemma CrossNext(tol: real, n: nat, s: real, z: real, d: real, a: real, c: real, square: real, inner: real)
    requires -CrossMargin(tol, n, s, z) <= z * d <= CrossMargin(tol, n, s, z) && -tol <= c <= tol
    requires square == s + a * a && inner == d + a * c
    ensures -CrossMargin(tol, n + 1, square, z) <= z * inner <= CrossMargin(tol, n + 1, square, z)
  {
    hide CrossMargin;
    PairBound(z, a, c, tol);
    CrossMarginNext(tol, n, s, z, a);
    Distribute(z, d, a * c);
  }

  lemma {:induction false} CrossBound(y: Vec, column: Vec, z: real, tol: real)
    requires |y| == |column| && forall i :: 0 <= i < |column| ==> -tol <= column[i] <= tol
    ensures -CrossMargin(tol, |y|, Dot(y, y), z) <= z * Dot(y, column) <= CrossMargin(tol, |y|, Dot(y, y), z)
  {
    hide Dot, CrossMargin;
    if |y| == 0 {
      CrossOfNone(y, column, z, tol);
    } else {
      var k := |y| - 1;
      CrossBound(y[..k], column[..k], z, tol);
      DotBack(y, column);
      DotBack(y, y);
      CrossNext(tol, k, Dot(y[..k], y[..k]), z, Dot(y[..k], column[..k]), y[k], column[k],
                Dot(y, y), Dot(y, column));
    }
  }

  lemma CrossOfNone(y: Vec, column: Vec, z: real, tol: real)
    requires |y| == |column| == 0
    ensures CrossMargin(tol, 0, Dot(y, y), z) == 0.0 == z * Dot(y, column)
  {
  }

  /** The leading block and the last column above the corner. */
  function Leading(e: Mat, k: nat): (r: Mat)
    requires IsMat(e, k + 1, k + 1)
    ensures IsMat(r, k, k) && forall i :: 0 <= i < k ==> r[i] == e[i][..k]
  {
    seq(k, i requires 0 <= i < k => e[i][..k])
  }

  function LastColumn(e: Mat, k: nat): (r: Vec)
    requires IsMat(e, k + 1, k + 1)
    ensures |r| == k && forall i :: 0 <= i < k ==> r[i] == e[i][k]
  {
    seq(k, i requires 0 <= i < k => e[i][k])
  }

  /** With a zero last row the form is that of the leading block and the last column's part. */
  lemma FormBack(e: Mat, x: Vec, k: nat)
    requires IsMat(e, k + 1, k + 1) && |x| == k + 1 && forall j :: 0 <= j <= k ==> e[k][j] == 0.0
    ensures Dot(x, MatVec(e, x)) == Dot(x[..k], MatVec(Leading(e, k), x[..k])) + x[k] * Dot(x[..k], LastColumn(e, k))
  {
    hide Dot;
    var y, z := x[..k], x[k];
    var full, inner := MatVec(e, x), Add(MatVec(Leading(e, k), y), Scale(z, LastColumn(e, k)));
    assert e[k] == Zeros(k + 1);
    DotSymmetric(e[k], x);
    DotZeros(x);
    forall i | 0 <= i < k
      ensures full[i] == inner[i]
    {
      DotBack(e[i], x);
    }
    assert full[..k] == inner;
    DotBack(x, full);
    DotAdd(y, MatVec(Leading(e, k), y), Scale(z, LastColumn(e, k)));
    DotScale(z, y, LastColumn(e, k));
  }

  /** What entries above the diagonal can contribute. */
  lemma {:induction false} UpperBound(e: Mat, x: Vec, n: nat, tol: real)
    requires IsMat(e, n, n) && |x| == n && StrictUpper(e, n, tol)
    ensures -Margin(tol, n, Dot(x, x)) <= Dot(x, MatVec(e, x)) <= Margin(tol, n, Dot(x, x))
    decreases n
  {
    hide Dot, Margin, CrossMargin, MatVec;
    if n == 0 {
      NoForm(e, x, tol);
    } else {
      var k := n - 1;
      UpperBound(Leading(e, k), x[..k], k, tol);
      CrossBound(x[..k], LastColumn(e, k), x[k], tol);
      FormBack(e, x, k);
      DotBack(x, x);
      MarginSum(tol, k, Dot(x[..k], x[..k]), x[k], Dot(x, x));
    }
  }

  lemma NoForm(e: Mat, x: Vec, tol: real)
    requires IsMat(e, 0, 0) && |x| == 0
    ensures Margin(tol, 0, Dot(x, x)) == 0.0 == Dot(x, MatVec(e, x))
  {
  }

  /** The stored form and the tested one differ by at most half the tolerance for every other component. */
  lemma FormsClose(m: Mat, x: Vec, n: nat)
    requires IsMat(m, n, n) && |x| == n && LooksLikeCorrelation(m, n)
    ensures var gap := Dot(x, MatVec(m, x)) - Dot(x, MatVec(FromLower(m, n), x));
            -Margin(0.000000000001, n, Dot(x, x)) <= gap <= Margin(0.000000000001, n, Dot(x, x))
  {
    hide Dot, Margin;
    var e := MatSub(m, FromLower(m, n), n);
    forall i, j | 0 <= i < n && 0 <= j < n
      ensures e[i][j] == if j <= i then 0.0 else m[i][j] - m[j][i]
    {
    }
    UpperBound(e, x, n, TOLERANCE);
    MatSubVec(m, FromLower(m, n), x);
    DotSub(x, MatVec(m, x), MatVec(FromLower(m, n), x));
  }

  /** An accepted matrix can be indefinite, but by no more than the symmetry tolerance allows. */
  lemma AcceptedFormBound(m: Mat, x: Vec, n: nat)
    requires IsMat(m, n, n) && |x| == n && x != Zeros(n)
    requires LooksLikeCorrelation(m, n) && PositiveDefinite(FromLower(m, n), n)
    ensures Dot(x, MatVec(m, x)) > -Margin(0.000000000001, n, Dot(x, x))
  {
    hide Dot, Margin, MatVec, FromLower, LooksLikeCorrelation;
    FormsClose(m, x, n);
  }

  /** A matrix that is stored exactly symmetric is its mirrored one, so it is itself positive definite. */
  lemma SymmetricIsMirrored(m: Mat, n: nat)
    requires IsMat(m, n, n)
    ensures FromLower(m, n) == m <==> forall i, j :: 0 <= j < i < n ==> m[i][j] == m[j][i]
  {
    var h := FromLower(m, n);
    if forall i, j :: 0 <= j < i < n ==> m[i][j] == m[j][i] {
      forall i | 0 <= i < n
        ensures h[i] == m[i]
      {
        assert forall j :: 0 <= j < n ==> h[i][j] == m[i][j];
      }
    }
  }

  function Skewed(): Mat {
    [[0.999999999999, 0.9999999999999], [0.9999999999989, 0.999999999999]]
  }

  lemma TwoByTwo(m: Mat, x: Vec)
    requires IsMat(m, 2, 2) && |x| == 2
    ensures Dot(x, MatVec(m, x))
            == x[0] * (m[0][0] * x[0] + m[0][1] * x[1]) + x[1] * (m[1][0] * x[0] + m[1][1] * x[1])
  {
    hide Dot;
    Dot2(m[0], x);
    Dot2(m[1], x);
    Dot2(x, MatVec(m, x));
  }

  lemma Dot2(x: Vec, y: Vec)
    requires |x| == |y| == 2
    ensures Dot(x, y) == x[0] * y[0] + x[1] * y[1]
  {
    hide Dot;
    DotFront(x, y);
    DotFront(x[1..], y[1..]);
    assert x[1..][1..] == y[1..][1..] == Zeros(0);
    DotZeros(Zeros(0));
  }

  lemma DefinitePair(d: real, c: real, s: real, t: real)
    requires 0.0 < c < d && (s != 0.0 || t != 0.0)
    ensures s * (d * s + c * t) + t * (c * s + d * t) > 0.0
  {
    var p, q, r := s * s, t * t, (s + t) * (s + t);
    SquareSign(s, p);
    SquareSign(t, q);
    SquareSign(s + t, r);
    PositiveProduct(d - c, p + q);
    NonNegativeProduct(c, r);
    assert s * (d * s + c * t) + t * (c * s + d * t) == (d - c) * (p + q) + c * r;
  }

  lemma PairForm(h: Mat, d: real, c: real, x: Vec)
    requires IsMat(h, 2, 2) && |x| == 2 && h[0][0] == d == h[1][1] && h[0][1] == c == h[1][0]
    ensures Dot(x, MatVec(h, x)) == x[0] * (d * x[0] + c * x[1]) + x[1] * (c * x[0] + d * x[1])
  {
    TwoByTwo(h, x);
  }

  lemma PairIsDefinite(h: Mat, d: real, c: real)
    requires IsMat(h, 2, 2) && 0.0 < c < d && h[0][0] == d == h[1][1] && h[0][1] == c == h[1][0]
    ensures PositiveDefinite(h, 2)
  {
    hide Dot, MatVec;
    forall x: Vec | |x| == 2 && x != Zeros(2)
      ensures Dot(x, MatVec(h, x)) > 0.0
    {
      assert x[0] != 0.0 || x[1] != 0.0;
      PairForm(h, d, c, x);
      DefinitePair(d, c, x[0], x[1]);
    }
  }

  /** A matrix that is accepted although its own form is negative in some direction. */
  lemma SomeAcceptedIsIndefinite()
    ensures var m := Skewed();
            && IsMat(m, 2, 2) && LooksLikeCorrelation(m, 2) && PositiveDefinite(FromLower(m, 2), 2)
            && Dot([1.0, -1.0], MatVec(m, [1.0, -1.0])) < 0.0
  {
    hide Dot, MatVec, FromLower, PositiveDefinite;
    TwoByTwo(Skewed(), [1.0, -1.0]);
    PairIsDefinite(FromLower(Skewed(), 2), 0.999999999999, 0.9999999999989);
  }
}
