/** One joint of the recursion: joint-space matrix, reduced inertia and bias, and the algebra behind them. */
module ArticulatedStep {
  import opened LinearAlgebra
  import opened LinearSolve

  /** Articulated inertia times each motion column. */
  function Columns(ia: Mat, s: seq<Vec>): (u: seq<Vec>)
    requires IsMat(ia, 6, 6) && Dim(s, 6)
    ensures IsMat(u, |s|, 6)
  {
    MapMat(ia, s, 6)
  }

  function JointMatrix(ia: Mat, s: seq<Vec>): (d: Mat)
    requires IsMat(ia, 6, 6) && Dim(s, 6)
    ensures IsMat(d, |s|, |s|) && Square(d)
    ensures forall l :: 0 <= l < |s| ==> d[l] == JointRow(ia, s, s[l])
  {
    seq(|s|, l requires 0 <= l < |s| => JointRow(ia, s, s[l]))
  }

  function JointRow(ia: Mat, s: seq<Vec>, motion: Vec): (r: Vec)
    requires IsMat(ia, 6, 6) && Dim(s, 6) && |motion| == 6
    ensures |r| == |s|
    ensures forall k :: 0 <= k < |s| ==> r[k] == Dot(motion, Columns(ia, s)[k])
  {
    seq(|s|, k requires 0 <= k < |s| => Dot(motion, Columns(ia, s)[k]))
  }

  /** Applied joint force not yet balanced by the articulated bias. */
  function Residual(p: Vec, s: seq<Vec>, tau: Vec): (r: Vec)
    requires |p| == 6 && Dim(s, 6) && |tau| == |s|
    ensures |r| == |s|
  {
    Sub(tau, MatVec(s, p))
  }

  /** The projector `U^T E U` removed from the articulated inertia. */
  function Projector(u: seq<Vec>, e: Mat): (r: Mat)
    requires Dim(u, 6) && IsMat(e, |u|, |u|)
    ensures IsMat(r, 6, 6)
  {
    MatMul(Transpose(u, 6), MatMul(e, u, 6), 6)
  }

  /** A singular joint matrix never reaches here in a run that returns; the inertia is then left alone. */
  function ReducedInertia(ia: Mat, s: seq<Vec>): (r: Mat)
    requires IsMat(ia, 6, 6) && Dim(s, 6)
    ensures IsMat(r, 6, 6)
  {
    match Inverse(JointMatrix(ia, s))
    case None => ia
    case Some(e) => MatSub(ia, Projector(Columns(ia, s), e), 6)
  }

  function SolveOrZero(d: Mat, b: Vec): (r: Vec)
    requires Square(d) && |b| == |d|
    ensures |r| == |d|
  {
    match Solve(d, b)
    case None => Zeros(|d|)
    case Some(x) => x
  }

  function ReducedBias(ia: Mat, p: Vec, s: seq<Vec>, c: Vec, tau: Vec): (r: Vec)
    requires IsMat(ia, 6, 6) && Dim(s, 6) && |p| == |c| == 6 && |tau| == |s|
    ensures |r| == 6
  {
    Add(Add(p, MatVec(ReducedInertia(ia, s), c)),
        Comb(SolveOrZero(JointMatrix(ia, s), Residual(p, s, tau)), Columns(ia, s), 6))
  }

  /** Joint acceleration for the spatial acceleration `a` the body has before its own joint moves. */
  function JointAcceleration(ia: Mat, p: Vec, s: seq<Vec>, tau: Vec, a: Vec): (q: Vec)
    requires IsMat(ia, 6, 6) && Dim(s, 6) && |p| == |a| == 6 && |tau| == |s|
    ensures |q| == |s|
  {
    SolveOrZero(JointMatrix(ia, s), Sub(Residual(p, s, tau), MatVec(Columns(ia, s), a)))
  }

  /** `X^T M X`: an inertia expressed in the parent frame. */
  function Congruence(x: Mat, m: Mat): (r: Mat)
    requires IsMat(x, 6, 6) && IsMat(m, 6, 6)
    ensures IsMat(r, 6, 6)
  {
    MatMul(Transpose(x, 6), MatMul(m, x, 6), 6)
  }

  /** `X^T f`: a force expressed in the parent frame. */
  function ToParent(x: Mat, f: Vec): (r: Vec)
    requires IsMat(x, 6, 6) && |f| == 6
    ensures |r| == 6
  {
    MatVec(Transpose(x, 6), f)
  }

  // ---------------------------------------------------------------- how the operators act

  lemma ColumnsAct(ia: Mat, s: seq<Vec>, x: Vec)
    requires IsMat(ia, 6, 6) && Dim(s, 6) && Symmetric(ia, 6) && |x| == 6
    ensures MatVec(Columns(ia, s), x) == MatVec(s, MatVec(ia, x))
  {
    hide Dot;
    var l, r := MatVec(Columns(ia, s), x), MatVec(s, MatVec(ia, x));
    forall k | 0 <= k < |s|
      ensures l[k] == r[k]
    {
      DotSymmetric(MatVec(ia, s[k]), x);
    }
  }

  lemma JointMatrixActs(ia: Mat, s: seq<Vec>, z: Vec)
    requires IsMat(ia, 6, 6) && Dim(s, 6) && |z| == |s|
    ensures MatVec(JointMatrix(ia, s), z) == MatVec(s, Comb(z, Columns(ia, s), 6))
    ensures MatVec(JointMatrix(ia, s), z) == MatVec(s, MatVec(ia, Comb(z, s, 6)))
  {
    hide Dot, Comb;
    var u := Columns(ia, s);
    MatVecComb(ia, z, s, 6);
    var l, r := MatVec(JointMatrix(ia, s), z), MatVec(s, Comb(z, u, 6));
    forall k | 0 <= k < |s|
      ensures l[k] == r[k]
    {
      assert JointRow(ia, s, s[k]) == MatVec(u, s[k]) by {
        forall j | 0 <= j < |s|
          ensures JointRow(ia, s, s[k])[j] == MatVec(u, s[k])[j]
        {
          DotSymmetric(s[k], u[j]);
        }
      }
      CombDot(z, u, s[k]);
      DotSymmetric(s[k], Comb(z, u, 6));
      DotSymmetric(z, MatVec(u, s[k]));
    }
    assert l == r;
  }

  lemma ProjectorActs(u: seq<Vec>, e: Mat, x: Vec)
    requires Dim(u, 6) && IsMat(e, |u|, |u|) && |x| == 6
    ensures MatVec(Projector(u, e), x) == Comb(MatVec(e, MatVec(u, x)), u, 6)
  {
    hide Dot, Comb, MatVec, MatMul, Transpose;
    MatMulVec(Transpose(u, 6), MatMul(e, u, 6), x);
    MatMulVec(e, u, x);
    TransposeVec(u, 6, MatVec(e, MatVec(u, x)));
  }

  lemma CongruenceActs(x: Mat, m: Mat, a: Vec)
    requires IsMat(x, 6, 6) && IsMat(m, 6, 6) && |a| == 6
    ensures MatVec(Congruence(x, m), a) == ToParent(x, MatVec(m, MatVec(x, a)))
  {
    hide Dot, Comb, MatVec, MatMul, Transpose;
    MatMulVec(Transpose(x, 6), MatMul(m, x, 6), a);
    MatMulVec(m, x, a);
  }

  /** Power is the same on both sides of a frame change. */
  lemma ToParentAdjoint(x: Mat, f: Vec, v: Vec)
    requires IsMat(x, 6, 6) && |f| == |v| == 6
    ensures Dot(ToParent(x, f), v) == Dot(f, MatVec(x, v))
  {
    TransposeVec(x, 6, f);
    CombDot(f, x, v);
  }

  lemma ToParentAdd(x: Mat, f: Vec, g: Vec)
    requires IsMat(x, 6, 6) && |f| == |g| == 6
    ensures ToParent(x, Add(f, g)) == Add(ToParent(x, f), ToParent(x, g))
  {
    MatVecAdd(Transpose(x, 6), f, g);
  }

  // ---------------------------------------------------------------- the joint equation

  /**
   * A joint carries exactly its applied force when, and only when, its acceleration is the one the
   * recursion solves for.
   */
  lemma JointEquation(ia: Mat, p: Vec, s: seq<Vec>, tau: Vec, a: Vec, q: Vec)
    requires IsMat(ia, 6, 6) && Dim(s, 6) && Symmetric(ia, 6)
    requires |p| == |a| == 6 && |tau| == |s| == |q|
    requires Nonsingular(JointMatrix(ia, s))
    ensures MatVec(s, Add(MatVec(ia, Add(a, Comb(q, s, 6))), p)) == tau
            <==> q == JointAcceleration(ia, p, s, tau, a)
  {
    hide Dot, Comb, MatVec, Solve, JointMatrix, Columns, Symmetric, Nonsingular;
    var d, u := JointMatrix(ia, s), Columns(ia, s);
    var move := Comb(q, s, 6);
    var b := Sub(Residual(p, s, tau), MatVec(u, a));
    MatVecAdd(ia, a, move);
    MatVecAdd(s, Add(MatVec(ia, a), MatVec(ia, move)), p);
    MatVecAdd(s, MatVec(ia, a), MatVec(ia, move));
    ColumnsAct(ia, s, a);
    JointMatrixActs(ia, s, q);
    SolvableIffNonsingular(d, b);
    SolveUnique(d, b, q);
    Balance(MatVec(d, q), MatVec(u, a), MatVec(s, p), tau);
  }

  lemma Balance(dq: Vec, ua: Vec, sp: Vec, tau: Vec)
    requires |dq| == |ua| == |sp| == |tau|
    ensures Add(Add(ua, dq), sp) == tau <==> dq == Sub(Sub(tau, sp), ua)
  {
    var l, r := Add(Add(ua, dq), sp), Sub(Sub(tau, sp), ua);
    if l == tau {
      forall k | 0 <= k < |tau|
        ensures dq[k] == r[k]
      {
        assert l[k] == tau[k];
      }
    }
    if dq == r {
      assert l == tau;
    }
  }

  /**
   * With that acceleration the force through the joint is affine in the parent's acceleration, with
   * the reduced inertia and bias as its coefficients.
   */
  lemma ReducedForce(ia: Mat, p: Vec, s: seq<Vec>, c: Vec, tau: Vec, b: Vec)
    requires IsMat(ia, 6, 6) && Dim(s, 6) && |p| == |c| == |b| == 6 && |tau| == |s|
    requires Nonsingular(JointMatrix(ia, s))
    ensures var a := Add(b, c);
            var q := JointAcceleration(ia, p, s, tau, a);
            Add(MatVec(ia, Add(a, Comb(q, s, 6))), p)
            == Add(MatVec(ReducedInertia(ia, s), b), ReducedBias(ia, p, s, c, tau))
  {
    hide Dot, Comb, MatVec, Solve, JointMatrix, Columns, Nonsingular, Projector;
    var d, u, a := JointMatrix(ia, s), Columns(ia, s), Add(b, c);
    var t, ua := Residual(p, s, tau), MatVec(u, a);
    var q := JointAcceleration(ia, p, s, tau, a);
    InverseSolves(d, t);
    InverseSolves(d, ua);
    InverseSolves(d, Sub(t, ua));
    var e := Inverse(d).value;
    MatVecAdd(e, t, ua);
    CombAdd(MatVec(e, t), MatVec(e, ua), u, 6);
    MatVecAdd(ia, a, Comb(q, s, 6));
    ColumnsComb(ia, s, q);
    ProjectorActs(u, e, a);
    MatSubVec(ia, Projector(u, e), a);
    MatVecAdd(ReducedInertia(ia, s), b, c);
    ForceSum(MatVec(ia, a), Comb(MatVec(e, t), u, 6), Comb(MatVec(e, ua), u, 6), p,
             MatVec(ReducedInertia(ia, s), b), MatVec(ReducedInertia(ia, s), c));
  }

  lemma ColumnsComb(ia: Mat, s: seq<Vec>, q: Vec)
    requires IsMat(ia, 6, 6) && Dim(s, 6) && |q| == |s|
    ensures MatVec(ia, Comb(q, s, 6)) == Comb(q, Columns(ia, s), 6)
  {
    MatVecComb(ia, q, s, 6);
  }

  lemma ForceSum(ia: Vec, w: Vec, y: Vec, p: Vec, rb: Vec, rc: Vec)
    requires |ia| == |w| == |y| == |p| == |rb| == |rc|
    requires Sub(ia, y) == Add(rb, rc)
    ensures Add(Add(ia, Sub(w, y)), p) == Add(rb, Add(Add(p, rc), w))
  {
    var l, r := Add(Add(ia, Sub(w, y)), p), Add(rb, Add(Add(p, rc), w));
    forall k | 0 <= k < |p|
      ensures l[k] == r[k]
    {
      assert Sub(ia, y)[k] == Add(rb, rc)[k];
    }
  }

  // ---------------------------------------------------------------- symmetry and definiteness

  /** Only the zero combination of the columns vanishes. */
  ghost predicate Independent(s: seq<Vec>)
    requires Dim(s, 6)
  {
    forall z: Vec :: |z| == |s| && z != Zeros(|s|) ==> Comb(z, s, 6) != Zeros(6)
  }

  lemma JointMatrixForm(ia: Mat, s: seq<Vec>, y: Vec, z: Vec)
    requires IsMat(ia, 6, 6) && Dim(s, 6) && |y| == |z| == |s|
    ensures Dot(y, MatVec(JointMatrix(ia, s), z)) == Dot(Comb(y, s, 6), MatVec(ia, Comb(z, s, 6)))
  {
    hide Dot, Comb, MatVec, JointMatrix;
    JointMatrixActs(ia, s, z);
    CombDot(y, s, MatVec(ia, Comb(z, s, 6)));
  }

  /** The joint matrix of a positive definite inertia is positive definite, hence never singular. */
  lemma JointMatrixDefinite(ia: Mat, s: seq<Vec>)
    requires IsMat(ia, 6, 6) && Dim(s, 6) && PositiveDefinite(ia, 6) && Independent(s)
    ensures PositiveDefinite(JointMatrix(ia, s), |s|)
    ensures Nonsingular(JointMatrix(ia, s))
  {
    hide Dot, Comb, MatVec, JointMatrix, Nonsingular;
    forall z: Vec | |z| == |s| && z != Zeros(|s|)
      ensures Dot(z, MatVec(JointMatrix(ia, s), z)) > 0.0
    {
      JointMatrixForm(ia, s, z, z);
    }
    DefiniteIsNonsingular(JointMatrix(ia, s));
  }

  lemma JointMatrixSymmetric(ia: Mat, s: seq<Vec>)
    requires IsMat(ia, 6, 6) && Dim(s, 6) && Symmetric(ia, 6)
    ensures Symmetric(JointMatrix(ia, s), |s|)
  {
    hide Dot, Comb, MatVec, JointMatrix;
    forall y: Vec, z: Vec | |y| == |s| && |z| == |s|
      ensures Dot(y, MatVec(JointMatrix(ia, s), z)) == Dot(z, MatVec(JointMatrix(ia, s), y))
    {
      JointMatrixForm(ia, s, y, z);
      JointMatrixForm(ia, s, z, y);
    }
  }

  /** The reduced inertia as a bilinear form. */
  lemma ReducedForm(ia: Mat, s: seq<Vec>, x: Vec, y: Vec)
    requires IsMat(ia, 6, 6) && Dim(s, 6) && |x| == |y| == 6
    requires Nonsingular(JointMatrix(ia, s))
    ensures Inverse(JointMatrix(ia, s)).Some?
    ensures Dot(x, MatVec(ReducedInertia(ia, s), y))
            == Dot(x, MatVec(ia, y))
            - Dot(MatVec(Columns(ia, s), x),
                  MatVec(Inverse(JointMatrix(ia, s)).value, MatVec(Columns(ia, s), y)))
  {
    hide Dot, Comb, MatVec, JointMatrix, Columns, Projector, Nonsingular;
    var d, u := JointMatrix(ia, s), Columns(ia, s);
    InverseSolves(d, MatVec(u, y));
    var e := Inverse(d).value;
    var w := MatVec(e, MatVec(u, y));
    MatSubVec(ia, Projector(u, e), y);
    ProjectorActs(u, e, y);
    DotSub(x, MatVec(ia, y), Comb(w, u, 6));
    CombDot(w, u, x);
    DotSymmetric(x, Comb(w, u, 6));
    DotSymmetric(w, MatVec(u, x));
  }

  lemma ReducedSymmetric(ia: Mat, s: seq<Vec>)
    requires IsMat(ia, 6, 6) && Dim(s, 6) && Symmetric(ia, 6)
    requires Nonsingular(JointMatrix(ia, s))
    ensures Symmetric(ReducedInertia(ia, s), 6)
  {
    hide Dot, Comb, MatVec, JointMatrix, Columns, Projector, Nonsingular, ReducedInertia;
    JointMatrixSymmetric(ia, s);
    var r, u := ReducedInertia(ia, s), Columns(ia, s);
    forall x: Vec, y: Vec | |x| == 6 && |y| == 6
      ensures Dot(x, MatVec(r, y)) == Dot(y, MatVec(r, x))
    {
      ReducedForm(ia, s, x, y);
      ReducedForm(ia, s, y, x);
      InverseSymmetric(JointMatrix(ia, s), MatVec(u, x), MatVec(u, y));
    }
  }

  /**
   * Reducing keeps semidefiniteness: `x . Red x` is the energy of `x` with its projection on the
   * joint motions removed.
   */
  lemma ReducedSemidefinite(ia: Mat, s: seq<Vec>)
    requires IsMat(ia, 6, 6) && Dim(s, 6) && Symmetric(ia, 6) && Semidefinite(ia, 6)
    requires Nonsingular(JointMatrix(ia, s))
    ensures Semidefinite(ReducedInertia(ia, s), 6)
  {
    hide Dot, MatVec, ReducedInertia, Nonsingular, JointMatrix, Symmetric;
    var r := ReducedInertia(ia, s);
    forall x: Vec | |x| == 6
      ensures Dot(x, MatVec(r, x)) >= 0.0
    {
      ReducedSemidefiniteAt(ia, s, x);
    }
  }

  lemma ReducedSemidefiniteAt(ia: Mat, s: seq<Vec>, x: Vec)
    requires IsMat(ia, 6, 6) && Dim(s, 6) && Symmetric(ia, 6) && Semidefinite(ia, 6) && |x| == 6
    requires Nonsingular(JointMatrix(ia, s))
    ensures Dot(x, MatVec(ReducedInertia(ia, s), x)) >= 0.0
  {
    hide *;
    var y := ReducedEnergy(ia, s, x);
    SemidefiniteAt(ia, y);
  }

  lemma SemidefiniteAt(a: Mat, x: Vec)
    requires IsMat(a, |x|, |x|) && Semidefinite(a, |x|)
    ensures Dot(x, MatVec(a, x)) >= 0.0
  {
  }

  lemma ReducedEnergy(ia: Mat, s: seq<Vec>, x: Vec) returns (y: Vec)
    requires IsMat(ia, 6, 6) && Dim(s, 6) && Symmetric(ia, 6) && |x| == 6
    requires Nonsingular(JointMatrix(ia, s))
    ensures |y| == 6 && Dot(x, MatVec(ReducedInertia(ia, s), x)) == Dot(y, MatVec(ia, y))
  {
    hide Dot, Comb, MatVec, JointMatrix, Columns, Nonsingular, ReducedInertia, Symmetric, Solve;
    var d, u := JointMatrix(ia, s), Columns(ia, s);
    var w := MatVec(u, x);
    InverseSolves(d, w);
    SolveCorrect(d, w);
    var z := MatVec(Inverse(d).value, w);
    var m := Comb(z, s, 6);
    y := Sub(x, m);
    ReducedForm(ia, s, x, x);
    ColumnsAct(ia, s, x);
    CombDot(z, s, MatVec(ia, x));
    JointMatrixForm(ia, s, z, z);
    ExpandSquare(ia, x, m);
    DotSymmetric(z, w);
  }

  lemma ExpandSquare(ia: Mat, x: Vec, m: Vec)
    requires IsMat(ia, 6, 6) && Symmetric(ia, 6) && |x| == |m| == 6
    ensures Dot(Sub(x, m), MatVec(ia, Sub(x, m)))
            == Dot(x, MatVec(ia, x)) - 2.0 * Dot(m, MatVec(ia, x)) + Dot(m, MatVec(ia, m))
  {
    hide Dot, MatVec;
    MatVecAdd(ia, x, m);
    DotSub(MatVec(ia, Sub(x, m)), x, m);
    DotSub(x, MatVec(ia, x), MatVec(ia, m));
    DotSub(m, MatVec(ia, x), MatVec(ia, m));
  }

  lemma CongruenceForm(x: Mat, m: Mat, a: Vec, b: Vec)
    requires IsMat(x, 6, 6) && IsMat(m, 6, 6) && |a| == |b| == 6
    ensures Dot(a, MatVec(Congruence(x, m), b)) == Dot(MatVec(x, a), MatVec(m, MatVec(x, b)))
  {
    hide Dot, MatVec, Congruence, ToParent;
    CongruenceActs(x, m, b);
    var f := MatVec(m, MatVec(x, b));
    ToParentAdjoint(x, f, a);
    DotSymmetric(a, ToParent(x, f));
    DotSymmetric(f, MatVec(x, a));
  }

  /** Adding a child's inertia, seen from the parent frame, keeps symmetry and definiteness. */
  lemma CongruenceAdds(i: Mat, x: Mat, m: Mat)
    requires IsMat(i, 6, 6) && IsMat(x, 6, 6) && IsMat(m, 6, 6)
    requires Symmetric(i, 6) && Symmetric(m, 6)
    ensures Symmetric(MatAdd(i, Congruence(x, m), 6), 6)
    ensures PositiveDefinite(i, 6) && Semidefinite(m, 6)
            ==> PositiveDefinite(MatAdd(i, Congruence(x, m), 6), 6)
  {
    hide Dot, MatVec, Congruence, MatAdd;
    var r := MatAdd(i, Congruence(x, m), 6);
    forall a: Vec, b: Vec | |a| == 6 && |b| == 6
      ensures Dot(a, MatVec(r, b)) == Dot(b, MatVec(r, a))
    {
      SumForm(i, x, m, a, b);
      SumForm(i, x, m, b, a);
    }
    if PositiveDefinite(i, 6) && Semidefinite(m, 6) {
      forall a: Vec | |a| == 6 && a != Zeros(6)
        ensures Dot(a, MatVec(r, a)) > 0.0
      {
        SumForm(i, x, m, a, a);
        SemidefiniteAt(m, MatVec(x, a));
      }
    }
  }

  lemma SumForm(i: Mat, x: Mat, m: Mat, a: Vec, b: Vec)
    requires IsMat(i, 6, 6) && IsMat(x, 6, 6) && IsMat(m, 6, 6) && |a| == |b| == 6
    ensures Dot(a, MatVec(MatAdd(i, Congruence(x, m), 6), b))
            == Dot(a, MatVec(i, b)) + Dot(MatVec(x, a), MatVec(m, MatVec(x, b)))
  {
    hide Dot, MatVec, Congruence, MatAdd;
    MatAddVec(i, Congruence(x, m), b);
    DotAdd(a, MatVec(i, b), MatVec(Congruence(x, m), b));
    CongruenceForm(x, m, a, b);
  }
}
