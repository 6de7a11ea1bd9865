/**
 * The three passes of the articulated-body recursion as loops over lists that they overwrite.
 * Each loop is proved against the recursive definitions of the tree.
 */
module Passes {
  import opened Wrappers
  import opened LinearAlgebra
  import opened LinearSolve
  import opened SpatialAlgebra
  import opened ArticulatedStep
  import opened ArticulatedTree

  // ---------------------------------------------------------------- accumulating loops

  /** Adds up `weights[k] * columns[k]`, from the first column on. */
  method Accumulate(columns: seq<Vec>, weights: Vec) returns (sum: Vec)
    requires Dim(columns, 6) && |weights| == |columns|
    ensures sum == Comb(weights, columns, 6)
  {
    sum := Zeros(6);
    for k := 0 to |columns|
      invariant sum == Comb(weights[..k], columns[..k], 6)
    {
      assert weights[..k + 1][..k] == weights[..k] && columns[..k + 1][..k] == columns[..k];
      sum := Add(sum, Scale(weights[k], columns[k]));
    }
    assert weights[..|columns|] == weights && columns[..|columns|] == columns;
  }

  /** The image of `x` once the outer products of the first `left` columns with all columns are in. */
  ghost function ProjectedLeft(u: seq<Vec>, e: Mat, left: nat, x: Vec): (r: Vec)
    requires Dim(u, 6) && IsMat(e, |u|, |u|) && left <= |u| && |x| == 6
    ensures |r| == 6
  {
    Comb(MatVec(e, MatVec(u, x))[..left], u[..left], 6)
  }

  /** ... and those of column `left` with the first `right` columns as well. */
  ghost function ProjectedRight(u: seq<Vec>, e: Mat, left: nat, right: nat, x: Vec): (r: Vec)
    requires Dim(u, 6) && IsMat(e, |u|, |u|) && left < |u| && right <= |u| && |x| == 6
    ensures |r| == 6
  {
    Add(ProjectedLeft(u, e, left, x), Scale(Dot(e[left][..right], MatVec(u, x)[..right]), u[left]))
  }

  lemma StartColumn(u: seq<Vec>, e: Mat, left: nat, x: Vec)
    requires Dim(u, 6) && IsMat(e, |u|, |u|) && left < |u| && |x| == 6
    ensures ProjectedRight(u, e, left, 0, x) == ProjectedLeft(u, e, left, x)
  {
    hide MatVec, ProjectedLeft, Dot;
    DotZeros([]);
    assert Zeros(0) == [];
    var p := ProjectedLeft(u, e, left, x);
    assert Add(p, Scale(0.0, u[left])) == p;
  }

  lemma EndColumn(u: seq<Vec>, e: Mat, left: nat, x: Vec)
    requires Dim(u, 6) && IsMat(e, |u|, |u|) && left < |u| && |x| == 6
    ensures ProjectedRight(u, e, left, |u|, x) == ProjectedLeft(u, e, left + 1, x)
  {
    hide Dot;
    var v := MatVec(u, x);
    var w := MatVec(e, v);
    assert e[left][..|u|] == e[left] && v[..|u|] == v;
    var c, us := w[..left + 1], u[..left + 1];
    assert c[..left] == w[..left] && us[..left] == u[..left];
  }

  lemma StepColumn(u: seq<Vec>, e: Mat, left: nat, right: nat, x: Vec)
    requires Dim(u, 6) && IsMat(e, |u|, |u|) && left < |u| && right < |u| && |x| == 6
    ensures ProjectedRight(u, e, left, right + 1, x)
            == Add(ProjectedRight(u, e, left, right, x), Scale(e[left][right], Scale(Dot(u[right], x), u[left])))
  {
    hide MatVec, Dot, ProjectedLeft;
    var w, row := MatVec(u, x), e[left];
    var k, v, d := row[right], w[right], Dot(row[..right], w[..right]);
    DotNext(row, w, right);
    ScaleSum(ProjectedLeft(u, e, left, x), d, k, v, Dot(row[..right + 1], w[..right + 1]), u[left]);
    assert v == Dot(u[right], x);
    assert Scale(k, Scale(v, u[left])) == Scale(e[left][right], Scale(Dot(u[right], x), u[left]));
  }

  lemma ScaleSum(c: Vec, d: real, k: real, w: real, s: real, v: Vec)
    requires |c| == |v| && s == d + k * w
    ensures Add(Add(c, Scale(d, v)), Scale(k, Scale(w, v))) == Add(c, Scale(s, v))
  {
    var l, r := Add(Add(c, Scale(d, v)), Scale(k, Scale(w, v))), Add(c, Scale(s, v));
    forall i | 0 <= i < |c|
      ensures l[i] == r[i]
    {
      Associate(k, w, v[i]);
      Distribute(v[i], d, k * w);
      assert Scale(k, Scale(w, v))[i] == k * (w * v[i]);
      assert r[i] == c[i] + s * v[i];
    }
  }

  /** `m` with `k` times the outer product of `x` and `y` added. */
  function Outered(m: Mat, k: real, x: Vec, y: Vec): (r: Mat)
    requires IsMat(m, 6, 6) && |x| == |y| == 6
    ensures IsMat(r, 6, 6)
  {
    MatAdd(m, MatScale(k, Outer(x, y), 6), 6)
  }

  lemma OuteredActs(m: Mat, k: real, x: Vec, y: Vec, v: Vec)
    requires IsMat(m, 6, 6) && |x| == |y| == |v| == 6
    ensures MatVec(Outered(m, k, x, y), v) == Add(MatVec(m, v), Scale(k, Scale(Dot(y, v), x)))
  {
    hide MatVec, Dot, MatAdd, MatScale, Outer, Scale, Add;
    var o := Outer(x, y);
    MatAddVec(m, MatScale(k, o, 6), v);
    MatScaleVec(k, o, v);
    OuterVec(x, y, v);
  }

  /** The accumulator after `left` full columns and `right` products of the next one. */
  ghost function Accumulated(u: seq<Vec>, e: Mat, left: nat, right: nat): (r: Mat)
    requires Dim(u, 6) && IsMat(e, |u|, |u|) && left <= |u| && right <= |u| && (left == |u| ==> right == 0)
    ensures IsMat(r, 6, 6)
    decreases left, right
  {
    if right > 0 then Outered(Accumulated(u, e, left, right - 1), e[left][right - 1], u[left], u[right - 1])
    else if left > 0 then Accumulated(u, e, left - 1, |u|)
    else ZeroMat(6, 6)
  }

  lemma {:induction false} AccumulatedActs(u: seq<Vec>, e: Mat, left: nat, right: nat, x: Vec)
    requires Dim(u, 6) && IsMat(e, |u|, |u|) && left <= |u| && right <= |u| && |x| == 6
    requires left == |u| ==> right == 0
    ensures left < |u| ==> MatVec(Accumulated(u, e, left, right), x) == ProjectedRight(u, e, left, right, x)
    ensures right == 0 ==> MatVec(Accumulated(u, e, left, right), x) == ProjectedLeft(u, e, left, x)
    decreases left, right
  {
    hide MatVec, Dot, Outered, ProjectedRight, Add, Scale;
    if right > 0 {
      AccumulatedActs(u, e, left, right - 1, x);
      OuteredActs(Accumulated(u, e, left, right - 1), e[left][right - 1], u[left], u[right - 1], x);
      StepColumn(u, e, left, right - 1, x);
    } else {
      if left > 0 {
        AccumulatedActs(u, e, left - 1, |u|, x);
        EndColumn(u, e, left - 1, x);
      } else {
        ZeroMatVec(6, x);
      }
      if left < |u| {
        StartColumn(u, e, left, x);
      }
    }
  }

  lemma AccumulatedAll(u: seq<Vec>, e: Mat)
    requires Dim(u, 6) && IsMat(e, |u|, |u|)
    ensures Accumulated(u, e, |u|, 0) == Projector(u, e)
  {
    hide MatVec, Dot, Comb, Projector, Accumulated;
    var m := Accumulated(u, e, |u|, 0);
    forall x: Vec | |x| == 6
      ensures MatVec(m, x) == MatVec(Projector(u, e), x)
    {
      AccumulatedActs(u, e, |u|, 0, x);
      ProjectorActs(u, e, x);
      var w := MatVec(e, MatVec(u, x));
      assert w[..|u|] == w && u[..|u|] == u;
    }
    SameAction(m, Projector(u, e));
  }

  /** The double loop over column pairs builds `U^T E U`. */
  method ProjectColumns(u: seq<Vec>, e: Mat) returns (projected: Mat)
    requires Dim(u, 6) && IsMat(e, |u|, |u|)
    ensures IsMat(projected, 6, 6) && projected == Projector(u, e)
  {
    hide Projector, Outered;
    projected := ZeroMat(6, 6);
    for left := 0 to |u|
      invariant IsMat(projected, 6, 6) && projected == Accumulated(u, e, left, 0)
    {
      for right := 0 to |u|
        invariant IsMat(projected, 6, 6) && projected == Accumulated(u, e, left, right)
      {
        projected := Outered(projected, e[left][right], u[left], u[right]);
      }
    }
    AccumulatedAll(u, e);
  }

  // ---------------------------------------------------------------- outward velocity pass

  method VelocityPass(ls: seq<Link>) returns (coriolis: seq<Vec>, biases: seq<Vec>)
    requires Tree(ls)
    ensures |coriolis| == |biases| == |ls|
    ensures forall i :: 0 <= i < |ls| ==> coriolis[i] == Coriolis(ls, i) && biases[i] == BodyBias(ls, i)
  {
    hide MatVec, Comb, MotionCross, ForceCross;
    var velocities := seq(|ls|, _ => Zeros(6));
    coriolis := velocities;
    biases := velocities;
    for i := 0 to |ls|
      invariant |velocities| == |coriolis| == |biases| == |ls|
      invariant forall j :: 0 <= j < i ==>
                  velocities[j] == Velocity(ls, j) && coriolis[j] == Coriolis(ls, j) && biases[j] == BodyBias(ls, j)
    {
      var l := ls[i];
      var parentVelocity := Zeros(6);
      if l.parent.Some? {
        parentVelocity := MatVec(l.transform, velocities[l.parent.value]);
      }
      var jointVelocity := Accumulate(l.subspace, l.rate);
      var velocity := Add(parentVelocity, jointVelocity);
      velocities := velocities[i := velocity];
      coriolis := coriolis[i := MatVec(MotionCross(velocity), jointVelocity)];
      biases := biases[i := Sub(MatVec(ForceCross(velocity), MatVec(l.inertia, velocity)), l.external)];
    }
  }

  // ---------------------------------------------------------------- inward pass

  /** What the inward pass keeps about each joint for the last pass. */
  datatype JointPass = JointPass(columns: seq<Vec>, matrix: Mat, residual: Vec)

  ghost predicate Recorded(ls: seq<Link>, i: nat, r: JointPass)
    requires Tree(ls) && i < |ls|
  {
    && r.columns == Columns(Inertia(ls, i, i + 1), ls[i].subspace)
    && r.matrix == JointMatrix(Inertia(ls, i, i + 1), ls[i].subspace)
    && r.residual == Residual(Bias(ls, i, i + 1), ls[i].subspace, ls[i].force)
  }

  datatype Reduction = Reduction(inertia: Mat, bias: Vec)

  /** The reduced inertia and bias of one body; `None` where NumPy reports a singular matrix. */
  method ReduceBody(ia: Mat, p: Vec, l: Link, c: Vec, i: nat) returns (r: Option<(JointPass, Reduction)>)
    requires WellFormed(l, i) && IsMat(ia, 6, 6) && |p| == |c| == 6
    ensures r.Some? <==> Nonsingular(JointMatrix(ia, l.subspace))
    ensures r.Some? ==> r.value.0 == JointPass(Columns(ia, l.subspace), JointMatrix(ia, l.subspace),
                                              Residual(p, l.subspace, l.force))
    ensures r.Some? ==> r.value.1 == Reduction(ReducedInertia(ia, l.subspace),
                                              ReducedBias(ia, p, l.subspace, c, l.force))
  {
    hide MatVec, Comb, JointMatrix, Columns, Solve, Nonsingular, Projector, Inverse;
    var u, d, t := Columns(ia, l.subspace), JointMatrix(ia, l.subspace), Residual(p, l.subspace, l.force);
    SolvableIffNonsingular(d, t);
    if |l.subspace| == 0 {
      WeldedReduces(ia, p, l, c, i);
      return Some((JointPass(u, d, t), Reduction(ia, Add(p, MatVec(ia, c)))));
    }
    var solved := Solve(d, t);
    if solved.None? {
      return None;
    }
    InverseSolves(d, t);
    var inverse := Inverse(d).value;
    var projected := ProjectColumns(u, inverse);
    var reduced := MatSub(ia, projected, 6);
    var weighted := Accumulate(u, solved.value);
    return Some((JointPass(u, d, t), Reduction(reduced, Add(Add(p, MatVec(reduced, c)), weighted))));
  }

  /** Without a joint motion there is nothing to project out: the welded branch is the general rule. */
  lemma WeldedReduces(ia: Mat, p: Vec, l: Link, c: Vec, i: nat)
    requires WellFormed(l, i) && IsMat(ia, 6, 6) && |p| == |c| == 6 && |l.subspace| == 0
    ensures Nonsingular(JointMatrix(ia, l.subspace))
    ensures ReducedInertia(ia, l.subspace) == ia
    ensures ReducedBias(ia, p, l.subspace, c, l.force) == Add(p, MatVec(ia, c))
  {
    hide MatVec, Projector, MatSub;
    var s := l.subspace;
    var d, u := JointMatrix(ia, s), Columns(ia, s);
    assert d == [] && u == [];
    var e := Inverse(d).value;
    assert e == [];
    EmptyProjector(ia, e);
    var b := Add(p, MatVec(ia, c));
    assert Add(b, Zeros(6)) == b;
  }

  lemma EmptyProjector(ia: Mat, e: Mat)
    requires IsMat(ia, 6, 6) && |e| == 0
    ensures MatSub(ia, Projector([], e), 6) == ia
  {
    hide MatVec, Projector, MatSub;
    var m := MatSub(ia, Projector([], e), 6);
    forall x: Vec | |x| == 6
      ensures MatVec(m, x) == MatVec(ia, x)
    {
      MatSubVec(ia, Projector([], e), x);
      ProjectorActs([], e, x);
      assert Sub(MatVec(ia, x), Zeros(6)) == MatVec(ia, x);
    }
    SameAction(m, ia);
  }

  lemma StartingPoint(ls: seq<Link>)
    requires Tree(ls)
    ensures forall j :: 0 <= j < |ls| ==> Inertia(ls, j, |ls|) == ls[j].inertia && Bias(ls, j, |ls|) == BodyBias(ls, j)
  {
  }

  /** Absorbing body `i` changes its parent's inertia and bias and nobody else's. */
  lemma AbsorbingStep(ls: seq<Link>, i: nat)
    requires Tree(ls) && i < |ls|
    ensures forall j :: 0 <= j < i && ls[i].parent != Some(j) ==>
              Inertia(ls, j, i) == Inertia(ls, j, i + 1) && Bias(ls, j, i) == Bias(ls, j, i + 1)
    ensures ls[i].parent.Some? ==>
              var j := ls[i].parent.value;
              && Inertia(ls, j, i) == MatAdd(Inertia(ls, j, i + 1), Congruence(ls[i].transform, Reduced(ls, i)), 6)
              && Bias(ls, j, i) == Add(Bias(ls, j, i + 1), ToParent(ls[i].transform, PassedBias(ls, i)))
  {
  }

  method InwardPass(ls: seq<Link>, coriolis: seq<Vec>, bodyBiases: seq<Vec>) returns (r: Option<seq<JointPass>>)
    requires Tree(ls) && |coriolis| == |bodyBiases| == |ls|
    requires forall i :: 0 <= i < |ls| ==> coriolis[i] == Coriolis(ls, i) && bodyBiases[i] == BodyBias(ls, i)
    ensures r.Some? <==> Solvable(ls, 0)
    ensures r.Some? ==> |r.value| == |ls| && forall i :: 0 <= i < |ls| ==> Recorded(ls, i, r.value[i])
  {
    hide MatVec, Comb, JointMatrix, Columns, Nonsingular, ReducedInertia, ReducedBias, Residual, BodyBias, Coriolis,
      MatAdd, Congruence, ToParent, Inertia, Bias;
    var inertias := seq(|ls|, i requires 0 <= i < |ls| => ls[i].inertia);
    var biases := bodyBiases;
    var passes := seq(|ls|, _ => JointPass([], [], []));
    StartingPoint(ls);
    var i := |ls|;
    while i > 0
      invariant 0 <= i <= |ls| && |inertias| == |biases| == |passes| == |ls|
      invariant Solvable(ls, i)
      invariant forall j :: 0 <= j < i ==> inertias[j] == Inertia(ls, j, i) && biases[j] == Bias(ls, j, i)
      invariant forall j :: i <= j < |ls| ==> Recorded(ls, j, passes[j])
    {
      i := i - 1;
      var l := ls[i];
      assert inertias[i] == Inertia(ls, i, i + 1) && biases[i] == Bias(ls, i, i + 1);
      var step := ReduceBody(inertias[i], biases[i], l, coriolis[i], i);
      if step.None? {
        assert !Nonsingular(JointMatrix(Inertia(ls, i, i + 1), l.subspace));
        return None;
      }
      var (pass, reduction) := step.value;
      passes := passes[i := pass];
      inertias := inertias[i := reduction.inertia];
      biases := biases[i := reduction.bias];
      AbsorbingStep(ls, i);
      if l.parent.Some? {
        var parent := l.parent.value;
        inertias := inertias[parent := MatAdd(inertias[parent], Congruence(l.transform, reduction.inertia), 6)];
        biases := biases[parent := Add(biases[parent], ToParent(l.transform, reduction.bias))];
      }
    }
    return Some(passes);
  }
}
