/** One rigid body in classical terms: the cross operators by halves, momentum, Newton and Euler laws. */
module NewtonEuler {
  import opened LinearAlgebra
  import opened SpatialAlgebra
  import opened Rotations

  // ---------------------------------------------------------------- the cross operators by halves

  /** Crossing two motions: angular halves cross, linear halves gather both mixed products. */
  lemma MotionCrossActs(w: Vec, u: Vec, w2: Vec, u2: Vec)
    requires |w| == |u| == |w2| == |u2| == 3
    ensures MatVec(MotionCross(w + u), w2 + u2) == Cross(w, w2) + Add(Cross(u, w2), Cross(w, u2))
  {
    hide MatVec, Skew, Cross, Block;
    var v := w + u;
    assert v[..3] == w && v[3..] == u;
    BlockActs(Skew(w), ZeroMat(3, 3), Skew(u), Skew(w), w2, u2);
    ZeroMatVec(3, u2);
    SkewIsCross(w, w2);
    SkewIsCross(u, w2);
    SkewIsCross(w, u2);
    assert Add(Cross(w, w2), Zeros(3)) == Cross(w, w2);
  }

  lemma CrossTriple(a: Vec, x: Vec, y: Vec)
    requires |a| == |x| == |y| == 3
    ensures Dot(Cross(a, x), y) == -Dot(x, Cross(a, y))
  {
    SkewAdjoint(a, x, y);
    SkewIsCross(a, x);
    SkewIsCross(a, y);
  }

  /** Vectors that have the same inner product with everything are equal. */
  lemma SameProducts(x: Vec, y: Vec)
    requires |x| == |y| && Dot(Sub(x, y), x) == Dot(Sub(x, y), y)
    ensures x == y
  {
    hide Dot;
    var d := Sub(x, y);
    DotSub(d, x, y);
    DotSelf(d);
    assert forall i :: 0 <= i < |x| ==> d[i] == Zeros(|x|)[i];
  }

  /** Crossing a motion with a force: the moment gathers both mixed products, linear halves cross. */
  lemma ForceCrossActs(w: Vec, u: Vec, n: Vec, f: Vec)
    requires |w| == |u| == |n| == |f| == 3
    ensures MatVec(ForceCross(w + u), n + f) == Add(Cross(w, n), Cross(u, f)) + Cross(w, f)
  {
    hide Dot, MatVec, Cross, ForceCross, MotionCross;
    var l, r := MatVec(ForceCross(w + u), n + f), Add(Cross(w, n), Cross(u, f)) + Cross(w, f);
    var m := Sub(l, r);
    var a, b := m[..3], m[3..];
    assert m == a + b;
    CrossDuality(w + u, m, n + f);
    MotionCrossActs(w, u, a, b);
    DotConcat(Cross(w, a), Add(Cross(u, a), Cross(w, b)), n, f);
    DotAdd(f, Cross(u, a), Cross(w, b));
    CrossTriple(w, a, n);
    CrossTriple(u, a, f);
    CrossTriple(w, b, f);
    DotConcat(a, b, Add(Cross(w, n), Cross(u, f)), Cross(w, f));
    DotAdd(a, Cross(w, n), Cross(u, f));
    SameProducts(l, r);
  }

  // ---------------------------------------------------------------- one rigid body

  /** Momentum of a rigid body: angular about the body origin, then linear. */
  lemma InertiaActs(mass: real, com: Vec, diag: Vec, w: Vec, v: Vec)
    requires |com| == |diag| == |w| == |v| == 3
    ensures var p := Scale(mass, CentreVelocity(com, w, v));
            MatVec(SpatialInertia(mass, com, diag), w + v) == Add(MatVec(Diagonal(diag), w), Cross(com, p)) + p
  {
    hide Dot, Skew, Diagonal, MatVec, MatMul, Identity, Block, Cross;
    var c, j := Skew(com), Diagonal(diag);
    var mc := MatScale(mass, c, 3);
    var cw, s := MatVec(c, w), CentreVelocity(com, w, v);
    BlockActs(MatSub(j, MatMul(mc, c, 3), 3), mc, MatScale(-mass, c, 3), MatScale(mass, Identity(3), 3), w, v);
    MatSubVec(j, MatMul(mc, c, 3), w);
    MatMulVec(mc, c, w);
    MatScaleVec(mass, c, cw);
    MatScaleVec(mass, c, v);
    MatScaleVec(-mass, c, w);
    MatScaleVec(mass, Identity(3), v);
    IdentityActs(v);
    MatVecAdd(c, v, cw);
    MatVecScale(c, mass, s);
    SkewIsCross(com, Scale(mass, s));
    MomentumHalves(mass, MatVec(j, w), MatVec(c, cw), MatVec(c, v), cw, v);
  }

  lemma MomentumHalves(m: real, jw: Vec, ccw: Vec, cv: Vec, cw: Vec, v: Vec)
    requires |jw| == |ccw| == |cv| == |cw| == |v| == 3
    ensures Add(Sub(jw, Scale(m, ccw)), Scale(m, cv)) == Add(jw, Scale(m, Sub(cv, ccw)))
    ensures Add(Scale(-m, cw), Scale(m, v)) == Scale(m, Sub(v, cw))
  {
    var l, r := Add(Sub(jw, Scale(m, ccw)), Scale(m, cv)), Add(jw, Scale(m, Sub(cv, ccw)));
    var x, y := Add(Scale(-m, cw), Scale(m, v)), Scale(m, Sub(v, cw));
    forall i | 0 <= i < 3
      ensures l[i] == r[i] && x[i] == y[i]
    {
      Difference(m, cv[i], ccw[i]);
      Difference(m, v[i], cw[i]);
    }
    assert l == r && x == y;
  }

  lemma Difference(m: real, x: real, y: real)
    ensures m * (x - y) == m * x - m * y
    ensures -m * y == -(m * y)
  {
  }

  lemma Jacobi(w: Vec, c: Vec, p: Vec)
    requires |w| == |c| == |p| == 3
    ensures Sub(Cross(w, Cross(c, p)), Cross(c, Cross(w, p))) == Cross(Cross(w, c), p)
  {
    hide Cross;
    CrossEntries(c, p);
    CrossEntries(w, p);
    CrossEntries(w, c);
    CrossEntries(w, Cross(c, p));
    CrossEntries(c, Cross(w, p));
    CrossEntries(Cross(w, c), p);
    JacobiEntry(w[0], w[1], w[2], c[0], c[1], c[2], p[0], p[1], p[2]);
    JacobiEntry(w[1], w[2], w[0], c[1], c[2], c[0], p[1], p[2], p[0]);
    JacobiEntry(w[2], w[0], w[1], c[2], c[0], c[1], p[2], p[0], p[1]);
    var l, r := Sub(Cross(w, Cross(c, p)), Cross(c, Cross(w, p))), Cross(Cross(w, c), p);
    assert l[0] == r[0] && l[1] == r[1] && l[2] == r[2];
    assert l == r;
  }

  lemma JacobiEntry(w0: real, w1: real, w2: real, c0: real, c1: real, c2: real, p0: real, p1: real, p2: real)
    ensures (w1 * (c0 * p1 - c1 * p0) - w2 * (c2 * p0 - c0 * p2))
            - (c1 * (w0 * p1 - w1 * p0) - c2 * (w2 * p0 - w0 * p2))
            == (w2 * c0 - w0 * c2) * p2 - (w0 * c1 - w1 * c0) * p1
  {
  }

  lemma CrossLinear(a: Vec, b: Vec, k: real)
    requires |a| == |b| == 3
    ensures Cross(a, Scale(k, b)) == Scale(k, Cross(a, b))
    ensures Cross(b, a) == Scale(-1.0, Cross(a, b))
  {
    hide Cross;
    CrossEntries(a, b);
    CrossEntries(b, a);
    CrossEntries(a, Scale(k, b));
    CrossEntryScale(a[1], b[2], a[2], b[1], k);
    CrossEntryScale(a[2], b[0], a[0], b[2], k);
    CrossEntryScale(a[0], b[1], a[1], b[0], k);
    var l, r := Cross(a, Scale(k, b)), Scale(k, Cross(a, b));
    assert l[0] == r[0] && l[1] == r[1] && l[2] == r[2];
    var x, y := Cross(b, a), Scale(-1.0, Cross(a, b));
    assert x[0] == y[0] && x[1] == y[1] && x[2] == y[2];
  }

  lemma CrossEntryScale(a: real, b: real, c: real, d: real, k: real)
    ensures a * (k * b) - c * (k * d) == k * (a * b - c * d)
  {
  }

  lemma CrossSum(a: Vec, b: Vec, p: Vec)
    requires |a| == |b| == |p| == 3
    ensures Cross(Add(a, b), p) == Add(Cross(a, p), Cross(b, p))
    ensures Cross(p, Add(a, b)) == Add(Cross(p, a), Cross(p, b))
  {
    hide Cross;
    CrossAdd(a, b, p);
    CrossLinear(Add(a, b), p, 1.0);
    CrossLinear(a, p, 1.0);
    CrossLinear(b, p, 1.0);
    ScaleSplits(-1.0, Cross(a, p), Cross(b, p));
  }

  lemma CrossItself(s: Vec, k: real)
    requires |s| == 3
    ensures Cross(s, Scale(k, s)) == Zeros(3)
  {
    CrossLinear(s, s, k);
  }

  /** The moment of momentum about the moving origin changes as if the momentum alone turned. */
  lemma MovingOrigin(mass: real, com: Vec, w: Vec, u: Vec)
    requires |com| == |w| == |u| == 3
    ensures var p := Scale(mass, CentreVelocity(com, w, u));
            Add(Cross(w, Cross(com, p)), Cross(u, p)) == Cross(com, Cross(w, p))
  {
    hide Cross, MatVec, Skew;
    var s := CentreVelocity(com, w, u);
    var p := Scale(mass, s);
    SkewIsCross(com, w);
    CrossLinear(com, w, 1.0);
    assert s == Add(u, Cross(w, com));
    Jacobi(w, com, p);
    CrossSum(u, Cross(w, com), p);
    CrossItself(s, mass);
    var x, y, z, t := Cross(w, Cross(com, p)), Cross(com, Cross(w, p)), Cross(u, p), Cross(Cross(w, com), p);
    assert Sub(x, y) == t && Add(z, t) == Zeros(3);
    forall i | 0 <= i < 3
      ensures x[i] + z[i] == y[i]
    {
      assert Sub(x, y)[i] == t[i] && Add(z, t)[i] == 0.0;
    }
  }

  /** Classical acceleration of the mass centre of a body with spatial velocity `w + u` and acceleration `a + b`. */
  function CentreAcceleration(com: Vec, w: Vec, u: Vec, a: Vec, b: Vec): (r: Vec)
    requires |com| == |w| == |u| == |a| == |b| == 3
    ensures |r| == 3
  {
    Add(CentreVelocity(com, a, b), Cross(w, CentreVelocity(com, w, u)))
  }

  /** What a rigid body needs: inertia times acceleration and the gyroscopic force, in classical terms. */
  lemma RigidBodyNeeds(mass: real, com: Vec, diag: Vec, w: Vec, u: Vec, a: Vec, b: Vec)
    requires |com| == |diag| == |w| == |u| == |a| == |b| == 3
    ensures var m, j := SpatialInertia(mass, com, diag), Diagonal(diag);
            var f := Scale(mass, CentreAcceleration(com, w, u, a, b));
            Add(MatVec(m, a + b), MatVec(ForceCross(w + u), MatVec(m, w + u)))
            == Add(Add(MatVec(j, a), Cross(w, MatVec(j, w))), Cross(com, f)) + f
  {
    hide MatVec, Cross, CentreVelocity, SpatialInertia, Diagonal, ForceCross;
    var j := Diagonal(diag);
    var p, r := Scale(mass, CentreVelocity(com, w, u)), Scale(mass, CentreVelocity(com, a, b));
    InertiaActs(mass, com, diag, a, b);
    InertiaActs(mass, com, diag, w, u);
    ForceCrossActs(w, u, Add(MatVec(j, w), Cross(com, p)), p);
    MovingOrigin(mass, com, w, u);
    CrossSum(MatVec(j, w), Cross(com, p), w);
    CrossLinear(w, CentreVelocity(com, w, u), mass);
    var f := Add(r, Cross(w, p));
    ScaleSplits(mass, CentreVelocity(com, a, b), Cross(w, CentreVelocity(com, w, u)));
    CrossSum(r, Cross(w, p), com);
    GatherHalves(MatVec(j, a), Cross(com, r), r, Cross(w, MatVec(j, w)), Cross(w, Cross(com, p)), Cross(u, p),
                 Cross(com, Cross(w, p)), Cross(w, p));
  }

  lemma ScaleSplits(k: real, x: Vec, y: Vec)
    requires |x| == |y|
    ensures Scale(k, Add(x, y)) == Add(Scale(k, x), Scale(k, y))
  {
    forall i | 0 <= i < |x|
      ensures Scale(k, Add(x, y))[i] == Add(Scale(k, x), Scale(k, y))[i]
    {
      Distribute(k, x[i], y[i]);
    }
  }

  lemma GatherHalves(ja: Vec, cr: Vec, r: Vec, wj: Vec, wcp: Vec, up: Vec, cwp: Vec, wp: Vec)
    requires |ja| == |cr| == |r| == |wj| == |wcp| == |up| == |cwp| == |wp| == 3 && Add(wcp, up) == cwp
    ensures Add(Add(ja, cr) + r, Add(Add(wj, wcp), up) + wp) == Add(Add(ja, wj), Add(cr, cwp)) + Add(r, wp)
  {
    forall i | 0 <= i < 3
      ensures wcp[i] + up[i] == cwp[i]
    {
      assert Add(wcp, up)[i] == cwp[i];
    }
  }
}
