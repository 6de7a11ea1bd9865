/**
 * The rotation matrices the joints produce, and the law for composing frame changes.
 *
 * Entries are wrapped in small functions (`Inner`, `Minor`, ...) so that the polynomial identities
 * behind orthogonality and the determinant are proved once, about scalars, and then carried over to
 * the matrices by substitution.
 */
module Rotations {
  import opened LinearAlgebra
  import opened SpatialAlgebra

  /** Rows orthonormal and right-handed. */
  ghost predicate ProperRotation(r: Mat) {
    && IsMat(r, 3, 3)
    && Dot(r[0], r[0]) == Dot(r[1], r[1]) == Dot(r[2], r[2]) == 1.0
    && Dot(r[0], r[1]) == Dot(r[0], r[2]) == Dot(r[1], r[2]) == 0.0
    && Cross(r[0], r[1]) == r[2]
  }

  // Entries of the rotation about (x, y, z) by the angle with cosine c, sine s and k == 1 - c.

  function AxisDiagonal(k: real, c: real, x: real): real {
    c + x * x * k
  }

  function AxisMinus(k: real, s: real, x: real, y: real, z: real): real {
    x * y * k - z * s
  }

  function AxisPlus(k: real, s: real, x: real, y: real, z: real): real {
    x * y * k + z * s
  }

  /** Rotation about the unit vector `u` by the angle with cosine `c` and sine `s`. */
  function AxisRotation(u: Vec, c: real, s: real): (r: Mat)
    requires |u| == 3
    ensures IsMat(r, 3, 3)
  {
    var (x, y, z, k) := (u[0], u[1], u[2], 1.0 - c);
    [[AxisDiagonal(k, c, x), AxisMinus(k, s, x, y, z), AxisPlus(k, s, x, z, y)],
     [AxisPlus(k, s, y, x, z), AxisDiagonal(k, c, y), AxisMinus(k, s, y, z, x)],
     [AxisMinus(k, s, z, x, y), AxisPlus(k, s, z, y, x), AxisDiagonal(k, c, z)]]
  }

  // Entries of the rotation of the quaternion with scalar part w and vector part (x, y, z).

  function QuatDiagonal(y: real, z: real): real {
    1.0 - 2.0 * (y * y + z * z)
  }

  function QuatMinus(w: real, x: real, y: real, z: real): real {
    2.0 * (x * y - w * z)
  }

  function QuatPlus(w: real, x: real, y: real, z: real): real {
    2.0 * (x * y + w * z)
  }

  /** Parent-from-child rotation of the unit quaternion `q`, scalar first. */
  function QuaternionRotation(q: Vec): (r: Mat)
    requires |q| == 4
    ensures IsMat(r, 3, 3)
  {
    var (w, x, y, z) := (q[0], q[1], q[2], q[3]);
    [[QuatDiagonal(y, z), QuatMinus(w, x, y, z), QuatPlus(w, x, z, y)],
     [QuatPlus(w, y, x, z), QuatDiagonal(z, x), QuatMinus(w, y, z, x)],
     [QuatMinus(w, z, x, y), QuatPlus(w, z, y, x), QuatDiagonal(x, y)]]
  }

  /** The inner product of two rows, by components. */
  function Inner(a: real, b: real, c: real, d: real, e: real, f: real): real {
    a * d + b * e + c * f
  }

  /** One component of a cross product. */
  function Minor(a: real, b: real, c: real, d: real): real {
    a * d - b * c
  }

  /** `ProperRotation` entry by entry. */
  lemma ProperByEntries(r: Mat)
    requires IsMat(r, 3, 3)
    requires Inner(r[0][0], r[0][1], r[0][2], r[0][0], r[0][1], r[0][2]) == 1.0
    requires Inner(r[1][0], r[1][1], r[1][2], r[1][0], r[1][1], r[1][2]) == 1.0
    requires Inner(r[2][0], r[2][1], r[2][2], r[2][0], r[2][1], r[2][2]) == 1.0
    requires Inner(r[0][0], r[0][1], r[0][2], r[1][0], r[1][1], r[1][2]) == 0.0
    requires Inner(r[0][0], r[0][1], r[0][2], r[2][0], r[2][1], r[2][2]) == 0.0
    requires Inner(r[1][0], r[1][1], r[1][2], r[2][0], r[2][1], r[2][2]) == 0.0
    requires Minor(r[0][1], r[0][2], r[1][1], r[1][2]) == r[2][0]
    requires Minor(r[0][2], r[0][0], r[1][2], r[1][0]) == r[2][1]
    requires Minor(r[0][0], r[0][1], r[1][0], r[1][1]) == r[2][2]
    ensures ProperRotation(r)
  {
    hide Dot, Cross, Inner, Minor;
    DotInner(r[0], r[0]);
    DotInner(r[1], r[1]);
    DotInner(r[2], r[2]);
    DotInner(r[0], r[1]);
    DotInner(r[0], r[2]);
    DotInner(r[1], r[2]);
    CrossMinors(r[0], r[1]);
    assert Cross(r[0], r[1]) == r[2];
  }

  // ---------------------------------------------------------------- axis rotations

  lemma AxisRow(x: real, y: real, z: real, k: real, c: real, s: real, a: real, b: real, d: real)
    requires x * x + y * y + z * z == 1.0 && c * c + s * s == 1.0 && k == 1.0 - c
    requires a == c + x * x * k && b == x * y * k - z * s && d == x * z * k + y * s
    ensures Inner(a, b, d, a, b, d) == 1.0
  {
    var n, xx := x * x + y * y + z * z, x * x;
    assert (c + x * x * k) * (c + x * x * k) + (x * y * k - z * s) * (x * y * k - z * s)
           + (x * z * k + y * s) * (x * z * k + y * s)
           == c * c + 2.0 * c * k * xx + xx * (k * k) * n + s * s * (n - xx);
    assert s * s * (n - xx) == s * s - s * s * xx;
    assert 2.0 * c * k * xx + xx * (k * k) - s * s * xx == xx * (2.0 * c * k + k * k - s * s);
    assert 2.0 * c * k + k * k - s * s == 0.0;
  }

  lemma AxisRows(x: real, y: real, z: real, k: real, c: real, s: real,
                 a: real, b: real, d: real, e: real, f: real, g: real)
    requires x * x + y * y + z * z == 1.0 && c * c + s * s == 1.0 && k == 1.0 - c
    requires a == c + x * x * k && b == x * y * k - z * s && d == x * z * k + y * s
    requires e == y * x * k + z * s && f == c + y * y * k && g == y * z * k - x * s
    ensures Inner(a, b, d, e, f, g) == 0.0
  {
    hide Inner;
    AxisRowProduct(x, y, z, k, c, s);
  }

  lemma AxisRowProduct(x: real, y: real, z: real, k: real, c: real, s: real)
    requires x * x + y * y + z * z == 1.0 && c * c + s * s == 1.0 && k == 1.0 - c
    ensures Inner(c + x * x * k, x * y * k - z * s, x * z * k + y * s,
                  y * x * k + z * s, c + y * y * k, y * z * k - x * s) == 0.0
  {
    var n, xy := x * x + y * y + z * z, x * y;
    assert (c + x * x * k) * (y * x * k + z * s) + (x * y * k - z * s) * (c + y * y * k)
           + (x * z * k + y * s) * (y * z * k - x * s)
           == xy * (2.0 * c * k + (k * k) * n - s * s);
    assert 2.0 * c * k + k * k - s * s == 0.0;
  }

  lemma AxisCross(x: real, y: real, z: real, k: real, c: real, s: real,
                  a: real, b: real, d: real, e: real, f: real, g: real)
    requires x * x + y * y + z * z == 1.0 && c * c + s * s == 1.0 && k == 1.0 - c
    requires a == c + x * x * k && b == x * y * k - z * s && d == x * z * k + y * s
    requires e == y * x * k + z * s && f == c + y * y * k && g == y * z * k - x * s
    ensures Minor(a, b, e, f) == c + z * z * k
    ensures Minor(b, d, f, g) == z * x * k - y * s
    ensures Minor(d, a, g, e) == z * y * k + x * s
  {
    hide Minor;
    AxisRowCross(x, y, z, k, c, s);
  }

  lemma AxisRowCross(x: real, y: real, z: real, k: real, c: real, s: real)
    requires x * x + y * y + z * z == 1.0 && c * c + s * s == 1.0 && k == 1.0 - c
    ensures Minor(c + x * x * k, x * y * k - z * s, y * x * k + z * s, c + y * y * k) == c + z * z * k
    ensures Minor(x * y * k - z * s, x * z * k + y * s, c + y * y * k, y * z * k - x * s) == z * x * k - y * s
    ensures Minor(x * z * k + y * s, c + x * x * k, y * z * k - x * s, y * x * k + z * s) == z * y * k + x * s
  {
    var n := x * x + y * y + z * z;
    var h := s * s - c * k;
    assert h == k;
    assert (c + x * x * k) * (c + y * y * k) - (x * y * k - z * s) * (y * x * k + z * s)
           == c * c + c * k * n + z * z * h;
    assert (x * y * k - z * s) * (y * z * k - x * s) - (x * z * k + y * s) * (c + y * y * k)
           == z * x * h - y * s * c - y * s * k * n;
    assert (x * z * k + y * s) * (y * x * k + z * s) - (c + x * x * k) * (y * z * k - x * s)
           == z * y * h + x * s * c + x * s * k * n;
    assert c * c + c * k == c;
  }

  lemma InnerSwap(a: real, b: real, c: real, d: real, e: real, f: real)
    ensures Inner(a, b, c, d, e, f) == Inner(b, c, a, e, f, d) == Inner(c, a, b, f, d, e)
    ensures Inner(a, b, c, d, e, f) == Inner(d, e, f, a, b, c)
  {
  }

  /** A unit axis and a point on the unit circle give a proper rotation. */
  lemma AxisRotationIsProper(u: Vec, c: real, s: real)
    requires |u| == 3 && Dot(u, u) == 1.0 && c * c + s * s == 1.0
    ensures ProperRotation(AxisRotation(u, c, s))
  {
    hide Dot, Inner, Minor, ProperRotation;
    var x, y, z, k := u[0], u[1], u[2], 1.0 - c;
    Dot3(u, u);
    var r := AxisRotation(u, c, s);
    AxisRow(x, y, z, k, c, s, r[0][0], r[0][1], r[0][2]);
    AxisRow(y, z, x, k, c, s, r[1][1], r[1][2], r[1][0]);
    AxisRow(z, x, y, k, c, s, r[2][2], r[2][0], r[2][1]);
    AxisRows(x, y, z, k, c, s, r[0][0], r[0][1], r[0][2], r[1][0], r[1][1], r[1][2]);
    AxisRows(y, z, x, k, c, s, r[1][1], r[1][2], r[1][0], r[2][1], r[2][2], r[2][0]);
    AxisRows(z, x, y, k, c, s, r[2][2], r[2][0], r[2][1], r[0][2], r[0][0], r[0][1]);
    AxisCross(x, y, z, k, c, s, r[0][0], r[0][1], r[0][2], r[1][0], r[1][1], r[1][2]);
    CyclicRows(AxisRotation(u, c, s));
  }

  /** Rows given in cyclic order, each against itself and the next. */
  lemma CyclicRows(r: Mat)
    requires IsMat(r, 3, 3)
    requires Inner(r[0][0], r[0][1], r[0][2], r[0][0], r[0][1], r[0][2]) == 1.0
    requires Inner(r[1][1], r[1][2], r[1][0], r[1][1], r[1][2], r[1][0]) == 1.0
    requires Inner(r[2][2], r[2][0], r[2][1], r[2][2], r[2][0], r[2][1]) == 1.0
    requires Inner(r[0][0], r[0][1], r[0][2], r[1][0], r[1][1], r[1][2]) == 0.0
    requires Inner(r[1][1], r[1][2], r[1][0], r[2][1], r[2][2], r[2][0]) == 0.0
    requires Inner(r[2][2], r[2][0], r[2][1], r[0][2], r[0][0], r[0][1]) == 0.0
    requires Minor(r[0][1], r[0][2], r[1][1], r[1][2]) == r[2][0]
    requires Minor(r[0][2], r[0][0], r[1][2], r[1][0]) == r[2][1]
    requires Minor(r[0][0], r[0][1], r[1][0], r[1][1]) == r[2][2]
    ensures ProperRotation(r)
  {
    hide Inner, Minor, ProperRotation;
    InnerSwap(r[1][0], r[1][1], r[1][2], r[1][0], r[1][1], r[1][2]);
    InnerSwap(r[2][0], r[2][1], r[2][2], r[2][0], r[2][1], r[2][2]);
    InnerSwap(r[1][0], r[1][1], r[1][2], r[2][0], r[2][1], r[2][2]);
    InnerSwap(r[2][0], r[2][1], r[2][2], r[0][0], r[0][1], r[0][2]);
    ProperByEntries(r);
  }

  // ---------------------------------------------------------------- quaternions

  lemma QuaternionRow(w: real, x: real, y: real, z: real)
    requires w * w + x * x + y * y + z * z == 1.0
    ensures var (a, b, c) := (QuatDiagonal(y, z), QuatMinus(w, x, y, z), QuatPlus(w, x, z, y));
            Inner(a, b, c, a, b, c) == 1.0
  {
    QuaternionNorm(w, x, y, z, w * w + x * x + y * y + z * z);
    assert QuatDiagonal(y, z) == w * w + x * x - y * y - z * z;
  }

  lemma QuaternionNorm(w: real, x: real, y: real, z: real, n: real)
    requires n == w * w + x * x + y * y + z * z
    ensures (w * w + x * x - y * y - z * z) * (w * w + x * x - y * y - z * z)
            + (2.0 * (x * y - w * z)) * (2.0 * (x * y - w * z)) + (2.0 * (x * z + w * y)) * (2.0 * (x * z + w * y))
            == n * n
  {
  }

  lemma QuaternionRows(w: real, x: real, y: real, z: real)
    requires w * w + x * x + y * y + z * z == 1.0
    ensures var (a, b, c) := (QuatDiagonal(y, z), QuatMinus(w, x, y, z), QuatPlus(w, x, z, y));
            var (d, e, f) := (QuatPlus(w, y, x, z), QuatDiagonal(z, x), QuatMinus(w, y, z, x));
            && Inner(a, b, c, d, e, f) == 0.0
            && Minor(a, b, d, e) == QuatDiagonal(x, y)
            && Minor(b, c, e, f) == QuatMinus(w, z, x, y)
            && Minor(c, a, f, d) == QuatPlus(w, z, y, x)
  {
    QuaternionProducts(w, x, y, z, w * w + x * x + y * y + z * z);
    assert QuatDiagonal(y, z) == w * w + x * x - y * y - z * z;
    assert QuatDiagonal(z, x) == w * w - x * x + y * y - z * z;
    assert QuatDiagonal(x, y) == w * w - x * x - y * y + z * z;
  }

  lemma QuaternionProducts(w: real, x: real, y: real, z: real, n: real)
    requires n == w * w + x * x + y * y + z * z
    ensures (w * w + x * x - y * y - z * z) * (2.0 * (y * x + w * z))
            + (2.0 * (x * y - w * z)) * (w * w - x * x + y * y - z * z)
            + (2.0 * (x * z + w * y)) * (2.0 * (y * z - w * x)) == 0.0
    ensures (w * w + x * x - y * y - z * z) * (w * w - x * x + y * y - z * z)
            - (2.0 * (x * y - w * z)) * (2.0 * (y * x + w * z)) == n * (w * w - x * x - y * y + z * z)
    ensures (2.0 * (x * y - w * z)) * (2.0 * (y * z - w * x))
            - (2.0 * (x * z + w * y)) * (w * w - x * x + y * y - z * z) == n * (2.0 * (z * x - w * y))
    ensures (2.0 * (x * z + w * y)) * (2.0 * (y * x + w * z))
            - (w * w + x * x - y * y - z * z) * (2.0 * (y * z - w * x)) == n * (2.0 * (z * y + w * x))
  {
  }

  /** A unit quaternion gives a proper rotation. */
  lemma QuaternionRotationIsProper(q: Vec)
    requires |q| == 4 && q[0] * q[0] + q[1] * q[1] + q[2] * q[2] + q[3] * q[3] == 1.0
    ensures ProperRotation(QuaternionRotation(q))
  {
    hide Inner, Minor, ProperRotation, QuatDiagonal, QuatMinus, QuatPlus;
    var w, x, y, z := q[0], q[1], q[2], q[3];
    QuaternionRow(w, x, y, z);
    QuaternionRow(w, y, z, x);
    QuaternionRow(w, z, x, y);
    QuaternionRows(w, x, y, z);
    QuaternionRows(w, y, z, x);
    QuaternionRows(w, z, x, y);
    CyclicRows(QuaternionRotation(q));
  }

  /** Transposing the rotation is conjugating the quaternion, so the child-from-parent form is proper too. */
  lemma TransposedQuaternion(q: Vec)
    requires |q| == 4
    ensures Transpose(QuaternionRotation(q), 3) == QuaternionRotation([q[0], -q[1], -q[2], -q[3]])
  {
    var l, r := Transpose(QuaternionRotation(q), 3), QuaternionRotation([q[0], -q[1], -q[2], -q[3]]);
    forall i | 0 <= i < 3
      ensures l[i] == r[i]
    {
      forall j | 0 <= j < 3
        ensures l[i][j] == r[i][j]
      {
        assert l[i][j] == QuaternionRotation(q)[j][i];
      }
    }
  }

  // ---------------------------------------------------------------- composing frame changes

  lemma ProperCycle(r: Mat)
    requires ProperRotation(r)
    ensures Cross(r[1], r[2]) == r[0] && Cross(r[2], r[0]) == r[1]
  {
    hide Dot;
    var a, b, c := r[0], r[1], r[2];
    Dot3(a, a);
    Dot3(b, b);
    Dot3(a, b);
    TripleProduct(a, b);
  }

  /** `b x (a x b) == a` and `(a x b) x a == b` for orthonormal `a` and `b`. */
  lemma TripleProduct(a: Vec, b: Vec)
    requires |a| == |b| == 3
    requires a[0] * a[0] + a[1] * a[1] + a[2] * a[2] == 1.0
    requires b[0] * b[0] + b[1] * b[1] + b[2] * b[2] == 1.0
    requires a[0] * b[0] + a[1] * b[1] + a[2] * b[2] == 0.0
    ensures Cross(b, Cross(a, b)) == a && Cross(Cross(a, b), a) == b
  {
    hide Cross, Minor;
    var c := Cross(a, b);
    CrossMinors(a, b);
    CrossMinors(b, c);
    CrossMinors(c, a);
    TripleEntry(a[0], a[1], a[2], b[0], b[1], b[2]);
    TripleEntry(a[1], a[2], a[0], b[1], b[2], b[0]);
    TripleEntry(a[2], a[0], a[1], b[2], b[0], b[1]);
    assert Cross(b, c) == a;
    assert Cross(c, a) == b;
  }

  lemma CrossMinors(a: Vec, b: Vec)
    requires |a| == |b| == 3
    ensures Cross(a, b)[0] == Minor(a[1], a[2], b[1], b[2])
    ensures Cross(a, b)[1] == Minor(a[2], a[0], b[2], b[0])
    ensures Cross(a, b)[2] == Minor(a[0], a[1], b[0], b[1])
  {
  }

  lemma TripleEntry(a0: real, a1: real, a2: real, b0: real, b1: real, b2: real)
    requires a0 * a0 + a1 * a1 + a2 * a2 == 1.0
    requires b0 * b0 + b1 * b1 + b2 * b2 == 1.0
    requires a0 * b0 + a1 * b1 + a2 * b2 == 0.0
    ensures Minor(b1, b2, Minor(a2, a0, b2, b0), Minor(a0, a1, b0, b1)) == a0
    ensures Minor(Minor(a2, a0, b2, b0), Minor(a0, a1, b0, b1), a1, a2) == b0
  {
    var n, m, d := b0 * b0 + b1 * b1 + b2 * b2, a0 * a0 + a1 * a1 + a2 * a2, a0 * b0 + a1 * b1 + a2 * b2;
    assert b1 * (a0 * b1 - a1 * b0) - b2 * (a2 * b0 - a0 * b2) == a0 * n - b0 * d;
    assert (a2 * b0 - a0 * b2) * a2 - (a0 * b1 - a1 * b0) * a1 == b0 * m - a0 * d;
  }

  lemma BinetCauchy(p: Vec, q: Vec, a: Vec, b: Vec)
    requires |p| == |q| == |a| == |b| == 3
    ensures Dot(Cross(p, q), Cross(a, b)) == Dot(p, a) * Dot(q, b) - Dot(q, a) * Dot(p, b)
  {
    hide Dot, Inner;
    var m, n := Cross(p, q), Cross(a, b);
    DotInner(m, n);
    DotInner(p, a);
    DotInner(q, b);
    DotInner(q, a);
    DotInner(p, b);
    BinetCauchyAt(p[0], p[1], p[2], q[0], q[1], q[2], a[0], a[1], a[2], b[0], b[1], b[2],
                  m[0], m[1], m[2], n[0], n[1], n[2]);
  }

  lemma BinetCauchyAt(p: real, q: real, r: real, u: real, v: real, w: real,
                      a: real, b: real, c: real, d: real, e: real, f: real,
                      m0: real, m1: real, m2: real, n0: real, n1: real, n2: real)
    requires m0 == q * w - r * v && m1 == r * u - p * w && m2 == p * v - q * u
    requires n0 == b * f - c * e && n1 == c * d - a * f && n2 == a * e - b * d
    ensures Inner(m0, m1, m2, n0, n1, n2)
            == Inner(p, q, r, a, b, c) * Inner(u, v, w, d, e, f) - Inner(u, v, w, a, b, c) * Inner(p, q, r, d, e, f)
  {
    hide Inner;
    BinetCauchyEntries(p, q, r, u, v, w, a, b, c, d, e, f);
  }

  lemma DotInner(x: Vec, y: Vec)
    requires |x| == |y| == 3
    ensures Dot(x, y) == Inner(x[0], x[1], x[2], y[0], y[1], y[2])
  {
    Dot3(x, y);
  }

  lemma BinetCauchyEntries(p: real, q: real, r: real, u: real, v: real, w: real,
                           a: real, b: real, c: real, d: real, e: real, f: real)
    ensures Inner(q * w - r * v, r * u - p * w, p * v - q * u, b * f - c * e, c * d - a * f, a * e - b * d)
            == Inner(p, q, r, a, b, c) * Inner(u, v, w, d, e, f) - Inner(u, v, w, a, b, c) * Inner(p, q, r, d, e, f)
  {
  }

  /** A proper rotation carries cross products to cross products. */
  lemma RotationKeepsCross(r: Mat, a: Vec, b: Vec)
    requires ProperRotation(r) && |a| == |b| == 3
    ensures MatVec(r, Cross(a, b)) == Cross(MatVec(r, a), MatVec(r, b))
  {
    hide Dot, Cross, MatVec;
    ProperCycle(r);
    BinetCauchy(r[1], r[2], a, b);
    BinetCauchy(r[2], r[0], a, b);
    BinetCauchy(r[0], r[1], a, b);
    CrossEntries(MatVec(r, a), MatVec(r, b));
    var l, m := MatVec(r, Cross(a, b)), Cross(MatVec(r, a), MatVec(r, b));
    assert l[0] == m[0];
    assert l[1] == m[1];
    assert l[2] == m[2];
  }

  lemma CrossEntries(a: Vec, b: Vec)
    requires |a| == |b| == 3
    ensures Cross(a, b)[0] == a[1] * b[2] - a[2] * b[1]
    ensures Cross(a, b)[1] == a[2] * b[0] - a[0] * b[2]
    ensures Cross(a, b)[2] == a[0] * b[1] - a[1] * b[0]
  {
  }

  /** The transpose of a proper rotation is its right inverse. */
  lemma RotationInverts(r: Mat, t: Vec)
    requires ProperRotation(r) && |t| == 3
    ensures MatVec(r, MatVec(Transpose(r, 3), t)) == t
  {
    hide Dot, Comb, Cross;
    TransposeVec(r, 3, t);
    var l := MatVec(r, Comb(t, r, 3));
    forall i | 0 <= i < 3
      ensures l[i] == t[i]
    {
      CombDot(t, r, r[i]);
      DotSymmetric(r[i], Comb(t, r, 3));
      DotSymmetric(r[0], r[1]);
      DotSymmetric(r[0], r[2]);
      DotSymmetric(r[1], r[2]);
      var m := MatVec(r, r[i]);
      assert m == Unit(3, i) by {
        assert m[0] == Unit(3, i)[0] && m[1] == Unit(3, i)[1] && m[2] == Unit(3, i)[2];
      }
      DotUnit(3, i, t);
    }
  }

  /** How a frame change moves a spatial velocity `w`, `v`. */
  lemma MotionTransformActs(rot: Mat, t: Vec, w: Vec, v: Vec)
    requires IsMat(rot, 3, 3) && |t| == |w| == |v| == 3
    ensures MatVec(MotionTransform(rot, t), w + v) == MatVec(rot, w) + MatVec(rot, Sub(v, Cross(t, w)))
  {
    hide Dot, Cross, Skew, Block, MatVec, MatMul;
    var low := MatMul(rot, Skew(t), 3);
    BlockActs(rot, ZeroMat(3, 3), MatScale(-1.0, low, 3), rot, w, v);
    ZeroMatVec(3, v);
    MatScaleVec(-1.0, low, w);
    MatMulVec(rot, Skew(t), w);
    SkewIsCross(t, w);
    MatVecAdd(rot, v, Cross(t, w));
    assert Add(MatVec(rot, w), Zeros(3)) == MatVec(rot, w);
    assert Add(Scale(-1.0, MatVec(rot, Cross(t, w))), MatVec(rot, v))
        == Sub(MatVec(rot, v), MatVec(rot, Cross(t, w)));
  }

  lemma ComposeActs(rot1: Mat, t1: Vec, rot2: Mat, t2: Vec, w: Vec, v: Vec)
    requires ProperRotation(rot1) && IsMat(rot2, 3, 3) && |t1| == |t2| == |w| == |v| == 3
    ensures var (rot, t) := Compose(rot1, t1, rot2, t2);
            MatVec(MotionTransform(rot, t), w + v)
            == MatVec(MotionTransform(rot2, t2), MatVec(MotionTransform(rot1, t1), w + v))
  {
    hide Dot, Cross, MatVec, MatMul, MotionTransform, Transpose;
    var (rot, t) := Compose(rot1, t1, rot2, t2);
    var back := MatVec(Transpose(rot1, 3), t2);
    var w1, v1 := MatVec(rot1, w), MatVec(rot1, Sub(v, Cross(t1, w)));
    MotionTransformActs(rot, t, w, v);
    MotionTransformActs(rot1, t1, w, v);
    MotionTransformActs(rot2, t2, w1, v1);
    MatMulVec(rot2, rot1, w);
    MatMulVec(rot2, rot1, Sub(v, Cross(t, w)));
    RotationInverts(rot1, t2);
    RotationKeepsCross(rot1, back, w);
    MatVecAdd(rot1, Sub(v, Cross(t1, w)), Cross(back, w));
    CrossAdd(t1, back, w);
    assert Sub(Sub(v, Cross(t1, w)), Cross(back, w)) == Sub(v, Cross(t, w));
  }

  lemma CrossAdd(a: Vec, b: Vec, w: Vec)
    requires |a| == |b| == |w| == 3
    ensures Cross(Add(a, b), w) == Add(Cross(a, w), Cross(b, w))
  {
    CrossEntries(a, w);
    CrossEntries(b, w);
    CrossEntries(Add(a, b), w);
    var l, r := Cross(Add(a, b), w), Add(Cross(a, w), Cross(b, w));
    assert l[0] == r[0] && l[1] == r[1] && l[2] == r[2];
  }

  /** Composing rotations and translations composes the maps on spatial motions. */
  lemma ComposeIsProduct(rot1: Mat, t1: Vec, rot2: Mat, t2: Vec)
    requires ProperRotation(rot1) && IsMat(rot2, 3, 3) && |t1| == |t2| == 3
    ensures var (rot, t) := Compose(rot1, t1, rot2, t2);
            MotionTransform(rot, t) == MatMul(MotionTransform(rot2, t2), MotionTransform(rot1, t1), 6)
  {
    hide Dot, Cross, MatVec, MatMul, MotionTransform, Compose;
    var (rot, t) := Compose(rot1, t1, rot2, t2);
    var a, b := MotionTransform(rot, t), MatMul(MotionTransform(rot2, t2), MotionTransform(rot1, t1), 6);
    forall x: Vec | |x| == 6
      ensures MatVec(a, x) == MatVec(b, x)
    {
      Split(x);
      ComposeActs(rot1, t1, rot2, t2, x[..3], x[3..]);
      MatMulVec(MotionTransform(rot2, t2), MotionTransform(rot1, t1), x);
    }
    SameAction(a, b);
  }
}
