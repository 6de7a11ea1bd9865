/**
 * Spatial (angular over linear) vectors: cross products, frame changes and rigid-body inertias.
 *
 * A spatial matrix is a two-by-two block of three-by-three matrices; `BlockActs` is the only place
 * that looks inside, everything else works with the angular and linear halves. A spatial inertia is
 * known by its bilinear form, from which symmetry and definiteness follow.
 */
module SpatialAlgebra {
  import opened LinearAlgebra

  function Skew(v: Vec): (r: Mat)
    requires |v| == 3
    ensures IsMat(r, 3, 3)
  {
    [[0.0, -v[2], v[1]], [v[2], 0.0, -v[0]], [-v[1], v[0], 0.0]]
  }

  /** The 6 by 6 matrix with the given 3 by 3 blocks. */
  function Block(a: Mat, b: Mat, c: Mat, d: Mat): (r: Mat)
    requires IsMat(a, 3, 3) && IsMat(b, 3, 3) && IsMat(c, 3, 3) && IsMat(d, 3, 3)
    ensures IsMat(r, 6, 6)
    ensures forall i :: 0 <= i < 3 ==> r[i] == a[i] + b[i] && r[i + 3] == c[i] + d[i]
  {
    seq(6, i requires 0 <= i < 6 => if i < 3 then a[i] + b[i] else c[i - 3] + d[i - 3])
  }

  function MotionCross(v: Vec): (r: Mat)
    requires |v| == 6
    ensures IsMat(r, 6, 6)
  {
    Block(Skew(v[..3]), ZeroMat(3, 3), Skew(v[3..]), Skew(v[..3]))
  }

  function ForceCross(v: Vec): (r: Mat)
    requires |v| == 6
    ensures IsMat(r, 6, 6)
  {
    MatScale(-1.0, Transpose(MotionCross(v), 6), 6)
  }

  /** Rotation and translation from parent to child, as one map on spatial motions. */
  function MotionTransform(rot: Mat, t: Vec): (r: Mat)
    requires IsMat(rot, 3, 3) && |t| == 3
    ensures IsMat(r, 6, 6)
  {
    Block(rot, ZeroMat(3, 3), MatScale(-1.0, MatMul(rot, Skew(t), 3), 3), rot)
  }

  /** First `rot1`, `t1`, then `rot2`, `t2`. */
  function Compose(rot1: Mat, t1: Vec, rot2: Mat, t2: Vec): (r: (Mat, Vec))
    requires IsMat(rot1, 3, 3) && IsMat(rot2, 3, 3) && |t1| == |t2| == 3
    ensures IsMat(r.0, 3, 3) && |r.1| == 3
  {
    (MatMul(rot2, rot1, 3), Add(t1, MatVec(Transpose(rot1, 3), t2)))
  }

  function Diagonal(d: Vec): (r: Mat)
    requires |d| == 3
    ensures IsMat(r, 3, 3)
  {
    [[d[0], 0.0, 0.0], [0.0, d[1], 0.0], [0.0, 0.0, d[2]]]
  }

  /** Spatial inertia about the body origin of a mass with centre `com` and central inertia `diag`. */
  function SpatialInertia(mass: real, com: Vec, diag: Vec): (r: Mat)
    requires |com| == |diag| == 3
    ensures IsMat(r, 6, 6)
  {
    var c := Skew(com);
    Block(MatSub(Diagonal(diag), MatMul(MatScale(mass, c, 3), c, 3), 3), MatScale(mass, c, 3),
          MatScale(-mass, c, 3), MatScale(mass, Identity(3), 3))
  }

  // ---------------------------------------------------------------- components

  lemma Dot3(x: Vec, y: Vec)
    requires |x| == |y| == 3
    ensures Dot(x, y) == x[0] * y[0] + x[1] * y[1] + x[2] * y[2]
  {
    hide Dot;
    DotFront(x, y);
    DotFront(x[1..], y[1..]);
    DotFront(x[1..][1..], y[1..][1..]);
    assert x[1..][1..][1..] == [] == y[1..][1..][1..];
    DotZeros([]);
    assert Zeros(0) == [];
  }

  lemma {:induction false} SumConcat(x: Vec, y: Vec)
    ensures Sum(x + y) == Sum(x) + Sum(y)
  {
    if |y| == 0 {
      assert x + y == x;
    } else {
      var k := |y| - 1;
      assert (x + y)[..|x + y| - 1] == x + y[..k];
      SumConcat(x, y[..k]);
    }
  }

  lemma DotConcat(a: Vec, b: Vec, c: Vec, d: Vec)
    requires |a| == |c| && |b| == |d|
    ensures Dot(a + b, c + d) == Dot(a, c) + Dot(b, d)
  {
    var l, r := Products(a + b, c + d), Products(a, c) + Products(b, d);
    forall i | 0 <= i < |l|
      ensures l[i] == r[i]
    {
      var x, y := (a + b)[i], (c + d)[i];
      assert l[i] == x * y;
    }
    assert l == r;
    SumConcat(Products(a, c), Products(b, d));
  }

  lemma BlockActs(a: Mat, b: Mat, c: Mat, d: Mat, w: Vec, v: Vec)
    requires IsMat(a, 3, 3) && IsMat(b, 3, 3) && IsMat(c, 3, 3) && IsMat(d, 3, 3) && |w| == |v| == 3
    ensures MatVec(Block(a, b, c, d), w + v)
            == Add(MatVec(a, w), MatVec(b, v)) + Add(MatVec(c, w), MatVec(d, v))
  {
    hide Dot, Block;
    var m := Block(a, b, c, d);
    var l, r := MatVec(m, w + v), Add(MatVec(a, w), MatVec(b, v)) + Add(MatVec(c, w), MatVec(d, v));
    forall i | 0 <= i < 6
      ensures l[i] == r[i]
    {
      if i < 3 {
        assert m[i] == a[i] + b[i];
        DotConcat(a[i], b[i], w, v);
      } else {
        assert m[(i - 3) + 3] == c[i - 3] + d[i - 3];
        DotConcat(c[i - 3], d[i - 3], w, v);
      }
    }
  }

  function Cross(a: Vec, b: Vec): (r: Vec)
    requires |a| == |b| == 3
    ensures |r| == 3
  {
    [a[1] * b[2] - a[2] * b[1], a[2] * b[0] - a[0] * b[2], a[0] * b[1] - a[1] * b[0]]
  }

  lemma SkewIsCross(a: Vec, b: Vec)
    requires |a| == |b| == 3
    ensures MatVec(Skew(a), b) == Cross(a, b)
  {
    hide Dot;
    var m := Skew(a);
    Dot3(m[0], b);
    Dot3(m[1], b);
    Dot3(m[2], b);
    var l, r := MatVec(m, b), Cross(a, b);
    assert l[0] == r[0] && l[1] == r[1] && l[2] == r[2];
    assert l == r;
  }

  /** `a x` is its own negative adjoint. */
  lemma SkewAdjoint(a: Vec, x: Vec, y: Vec)
    requires |a| == |x| == |y| == 3
    ensures Dot(x, MatVec(Skew(a), y)) == -Dot(MatVec(Skew(a), x), y)
  {
    hide Dot;
    SkewIsCross(a, x);
    SkewIsCross(a, y);
    Dot3(x, Cross(a, y));
    Dot3(Cross(a, x), y);
  }

  // ---------------------------------------------------------------- cross products do no work

  /** The force cross product is the negative adjoint of the motion cross product. */
  lemma CrossDuality(v: Vec, m: Vec, f: Vec)
    requires |v| == |m| == |f| == 6
    ensures Dot(m, MatVec(ForceCross(v), f)) == -Dot(MatVec(MotionCross(v), m), f)
  {
    hide Dot, MotionCross;
    var t := Transpose(MotionCross(v), 6);
    MatScaleVec(-1.0, t, f);
    DotScale(-1.0, m, MatVec(t, f));
    TransposeVec(MotionCross(v), 6, f);
    CombDot(f, MotionCross(v), m);
    DotSymmetric(m, MatVec(t, f));
    DotSymmetric(f, MatVec(MotionCross(v), m));
  }

  lemma SelfCross(v: Vec)
    requires |v| == 6
    ensures MatVec(MotionCross(v), v) == Zeros(6)
  {
    hide Dot;
    var w, u := v[..3], v[3..];
    assert v == w + u;
    BlockActs(Skew(w), ZeroMat(3, 3), Skew(u), Skew(w), w, u);
    ZeroMatVec(3, u);
    SkewIsCross(w, w);
    SkewIsCross(u, w);
    SkewIsCross(w, u);
    assert Add(Cross(w, w), Zeros(3)) == Zeros(3);
    assert Add(Cross(u, w), Cross(w, u)) == Zeros(3);
    assert Zeros(3) + Zeros(3) == Zeros(6);
  }

  /** The gyroscopic force on a moving body is workless, whatever the inertia. */
  lemma GyroscopicForceIsWorkless(v: Vec, h: Vec)
    requires |v| == |h| == 6
    ensures Dot(v, MatVec(ForceCross(v), h)) == 0.0
  {
    hide Dot;
    CrossDuality(v, v, h);
    SelfCross(v);
    DotZeros(h);
  }

  // ---------------------------------------------------------------- rigid-body inertia

  /** Velocity of the mass centre seen from the body origin. */
  function CentreVelocity(com: Vec, w: Vec, v: Vec): (r: Vec)
    requires |com| == |w| == |v| == 3
    ensures |r| == 3
  {
    Sub(v, MatVec(Skew(com), w))
  }

  /** The spatial inertia is the central rotational form plus the mass times the centre's motion. */
  lemma InertiaForm(mass: real, com: Vec, diag: Vec, w: Vec, v: Vec, w2: Vec, v2: Vec)
    requires |com| == |diag| == |w| == |v| == |w2| == |v2| == 3
    ensures Dot(w + v, MatVec(SpatialInertia(mass, com, diag), w2 + v2))
            == Dot(w, MatVec(Diagonal(diag), w2))
            + mass * Dot(CentreVelocity(com, w, v), CentreVelocity(com, w2, v2))
  {
    hide Dot, Skew, Diagonal, MatVec, MatMul, Identity, Block;
    var c, j := Skew(com), Diagonal(diag);
    var mc := MatScale(mass, c, 3);
    var a := MatSub(j, MatMul(mc, c, 3), 3);
    var cw, cw2, cv2 := MatVec(c, w), MatVec(c, w2), MatVec(c, v2);
    BlockActs(a, mc, MatScale(-mass, c, 3), MatScale(mass, Identity(3), 3), w2, v2);
    MatSubVec(j, MatMul(mc, c, 3), w2);
    MatMulVec(mc, c, w2);
    MatScaleVec(mass, c, cw2);
    MatScaleVec(mass, c, v2);
    MatScaleVec(-mass, c, w2);
    MatScaleVec(mass, Identity(3), v2);
    IdentityActs(v2);
    var top := Add(Sub(MatVec(j, w2), Scale(mass, MatVec(c, cw2))), Scale(mass, cv2));
    var bottom := Add(Scale(-mass, cw2), Scale(mass, v2));
    DotConcat(w, v, top, bottom);
    DotAdd(w, Sub(MatVec(j, w2), Scale(mass, MatVec(c, cw2))), Scale(mass, cv2));
    DotSub(w, MatVec(j, w2), Scale(mass, MatVec(c, cw2)));
    DotScale(mass, w, MatVec(c, cw2));
    DotScale(mass, w, cv2);
    DotAdd(v, Scale(-mass, cw2), Scale(mass, v2));
    DotScale(-mass, v, cw2);
    DotScale(mass, v, v2);
    SkewAdjoint(com, w, cw2);
    SkewAdjoint(com, w, v2);
    DotSub(Sub(v, cw), v2, cw2);
    DotSub(v2, v, cw);
    DotSub(cw2, v, cw);
    InertiaAlgebra(mass, Dot(v, v2), Dot(v, cw2), Dot(cw, v2), Dot(cw, cw2));
  }

  lemma InertiaAlgebra(m: real, vv: real, vc: real, cv: real, cc: real)
    ensures -(m * -cc) + m * -cv + (-m * vc + m * vv) == m * ((vv - cv) - (vc - cc))
  {
  }

  lemma IdentityActs(v: Vec)
    ensures MatVec(Identity(|v|), v) == v
  {
    var n := |v|;
    forall i | 0 <= i < n
      ensures MatVec(Identity(n), v)[i] == v[i]
    {
      DotUnit(n, i, v);
    }
  }

  lemma DiagonalForm(diag: Vec, w: Vec, w2: Vec)
    requires |diag| == |w| == |w2| == 3
    ensures Dot(w, MatVec(Diagonal(diag), w2))
            == diag[0] * (w[0] * w2[0]) + diag[1] * (w[1] * w2[1]) + diag[2] * (w[2] * w2[2])
  {
    hide Dot;
    var m := Diagonal(diag);
    Dot3(m[0], w2);
    Dot3(m[1], w2);
    Dot3(m[2], w2);
    Dot3(w, MatVec(m, w2));
    Associate(diag[0], w[0], w2[0]);
    Associate(diag[1], w[1], w2[1]);
    Associate(diag[2], w[2], w2[2]);
  }

  lemma PositiveDiagonal(diag: Vec, w: Vec)
    requires |diag| == |w| == 3 && forall i :: 0 <= i < 3 ==> diag[i] > 0.0
    ensures Dot(w, MatVec(Diagonal(diag), w)) >= 0.0
    ensures w != Zeros(3) ==> Dot(w, MatVec(Diagonal(diag), w)) > 0.0
  {
    hide Dot, MatVec, Diagonal;
    DiagonalForm(diag, w, w);
    var t0, t1, t2 := WeightedSquare(diag[0], w[0]), WeightedSquare(diag[1], w[1]), WeightedSquare(diag[2], w[2]);
    assert Dot(w, MatVec(Diagonal(diag), w)) == t0 + t1 + t2;
    if w != Zeros(3) {
      assert w[0] != 0.0 || w[1] != 0.0 || w[2] != 0.0;
    }
  }

  function WeightedSquare(d: real, x: real): (t: real)
    requires d > 0.0
    ensures t == d * (x * x) && t >= 0.0 && (x != 0.0 ==> t > 0.0)
  {
    SquareSign(x, x * x);
    SameSign(d, x * x, d * (x * x));
    d * (x * x)
  }

  /**
   * A body with positive mass and positive principal inertias has a symmetric positive definite
   * spatial inertia, wherever its centre of mass lies.
   */
  lemma SpatialInertiaDefinite(mass: real, com: Vec, diag: Vec)
    requires |com| == |diag| == 3 && mass > 0.0 && forall i :: 0 <= i < 3 ==> diag[i] > 0.0
    ensures Symmetric(SpatialInertia(mass, com, diag), 6)
    ensures PositiveDefinite(SpatialInertia(mass, com, diag), 6)
  {
    hide Dot, MatVec, SpatialInertia, CentreVelocity, Diagonal;
    var m := SpatialInertia(mass, com, diag);
    forall x: Vec, y: Vec | |x| == 6 && |y| == 6
      ensures Dot(x, MatVec(m, y)) == Dot(y, MatVec(m, x))
    {
      Split(x);
      Split(y);
      InertiaForm(mass, com, diag, x[..3], x[3..], y[..3], y[3..]);
      InertiaForm(mass, com, diag, y[..3], y[3..], x[..3], x[3..]);
      DiagonalForm(diag, x[..3], y[..3]);
      DiagonalForm(diag, y[..3], x[..3]);
      DotSymmetric(CentreVelocity(com, x[..3], x[3..]), CentreVelocity(com, y[..3], y[3..]));
    }
    forall x: Vec | |x| == 6 && x != Zeros(6)
      ensures Dot(x, MatVec(m, x)) > 0.0
    {
      InertiaEnergy(mass, com, diag, x);
    }
  }

  lemma Split(x: Vec)
    requires |x| == 6
    ensures x == x[..3] + x[3..]
    ensures x[..3] == Zeros(3) && x[3..] == Zeros(3) ==> x == Zeros(6)
  {
    if x[..3] == Zeros(3) && x[3..] == Zeros(3) {
      assert Zeros(3) + Zeros(3) == Zeros(6);
    }
  }

  lemma InertiaEnergy(mass: real, com: Vec, diag: Vec, x: Vec)
    requires |com| == |diag| == 3 && mass > 0.0 && forall i :: 0 <= i < 3 ==> diag[i] > 0.0
    requires |x| == 6 && x != Zeros(6)
    ensures Dot(x, MatVec(SpatialInertia(mass, com, diag), x)) > 0.0
  {
    hide Dot, MatVec, SpatialInertia, Diagonal;
    var w, v := x[..3], x[3..];
    var c := CentreVelocity(com, w, v);
    Split(x);
    InertiaForm(mass, com, diag, w, v, w, v);
    PositiveDiagonal(diag, w);
    DotSelf(c);
    if w == Zeros(3) {
      MatVecZeros(Skew(com), 3);
      assert c == v;
    }
    SameSign(mass, Dot(c, c), mass * Dot(c, c));
  }
}
