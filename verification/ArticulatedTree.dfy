/** The equations of motion of a tree of bodies, parents numbered first, and the recursion that solves them. */
module ArticulatedTree {
  import opened Wrappers
  import opened LinearAlgebra
  import opened LinearSolve
  import opened SpatialAlgebra
  import opened ArticulatedStep

  /** One body with its joint: everything the three passes read about it. */
  datatype Link = Link(parent: Option<nat>, inertia: Mat, transform: Mat, subspace: seq<Vec>,
                       rate: Vec, force: Vec, external: Vec)

  ghost predicate WellFormed(l: Link, i: nat) {
    && IsMat(l.inertia, 6, 6) && IsMat(l.transform, 6, 6) && Dim(l.subspace, 6)
    && |l.rate| == |l.force| == |l.subspace| && |l.external| == 6
    && (l.parent.Some? ==> l.parent.value < i)
  }

  ghost predicate Tree(ls: seq<Link>) {
    forall i :: 0 <= i < |ls| ==> WellFormed(ls[i], i)
  }

  // ---------------------------------------------------------------- kinematics

  function JointVelocity(l: Link): (r: Vec)
    requires Dim(l.subspace, 6) && |l.rate| == |l.subspace|
    ensures |r| == 6
  {
    Comb(l.rate, l.subspace, 6)
  }

  function Velocity(ls: seq<Link>, i: nat): (r: Vec)
    requires Tree(ls) && i < |ls|
    ensures |r| == 6
  {
    var carried := match ls[i].parent
      case None => Zeros(6)
      case Some(p) => MatVec(ls[i].transform, Velocity(ls, p));
    Add(carried, JointVelocity(ls[i]))
  }

  function Coriolis(ls: seq<Link>, i: nat): (r: Vec)
    requires Tree(ls) && i < |ls|
    ensures |r| == 6
  {
    MatVec(MotionCross(Velocity(ls, i)), JointVelocity(ls[i]))
  }

  /** Gyroscopic force less the applied external force. */
  function BodyBias(ls: seq<Link>, i: nat): (r: Vec)
    requires Tree(ls) && i < |ls|
    ensures |r| == 6
  {
    var v := Velocity(ls, i);
    Sub(MatVec(ForceCross(v), MatVec(ls[i].inertia, v)), ls[i].external)
  }

  // ---------------------------------------------------------------- equations of motion

  /** One joint acceleration vector per body. */
  ghost predicate Fits(ls: seq<Link>, q: seq<Vec>) {
    |q| == |ls| && forall i :: 0 <= i < |ls| ==> |q[i]| == |ls[i].subspace|
  }

  /** Acceleration of body `i` before its own joint accelerates. */
  function CarriedAcceleration(ls: seq<Link>, root: Vec, q: seq<Vec>, i: nat): (r: Vec)
    requires Tree(ls) && Fits(ls, q) && |root| == 6 && i < |ls|
    ensures |r| == 6
    decreases i, 0
  {
    var above := match ls[i].parent
      case None => root
      case Some(p) => Acceleration(ls, root, q, p);
    Add(MatVec(ls[i].transform, above), Coriolis(ls, i))
  }

  function Acceleration(ls: seq<Link>, root: Vec, q: seq<Vec>, i: nat): (r: Vec)
    requires Tree(ls) && Fits(ls, q) && |root| == 6 && i < |ls|
    ensures |r| == 6
    decreases i, 1
  {
    Add(CarriedAcceleration(ls, root, q, i), Comb(q[i], ls[i].subspace, 6))
  }

  /**
   * Newton-Euler force through the joint of body `i`, counting only the children numbered `k` or
   * higher: what the body itself needs plus what those children pull on it.
   */
  function LinkForce(ls: seq<Link>, root: Vec, q: seq<Vec>, i: nat, k: nat): (r: Vec)
    requires Tree(ls) && Fits(ls, q) && |root| == 6 && i < k <= |ls|
    ensures |r| == 6
    decreases |ls| - k
  {
    if k == |ls| then
      Add(MatVec(ls[i].inertia, Acceleration(ls, root, q, i)), BodyBias(ls, i))
    else
      var f := LinkForce(ls, root, q, i, k + 1);
      if ls[k].parent == Some(i) then
        Add(f, ToParent(ls[k].transform, LinkForce(ls, root, q, k, k + 1)))
      else f
  }

  /** The joint of body `i` transmits exactly its generalized force. */
  ghost predicate JointBalanced(ls: seq<Link>, root: Vec, q: seq<Vec>, i: nat)
    requires Tree(ls) && Fits(ls, q) && |root| == 6 && i < |ls|
  {
    MatVec(ls[i].subspace, LinkForce(ls, root, q, i, i + 1)) == ls[i].force
  }

  ghost predicate EquationsOfMotion(ls: seq<Link>, root: Vec, q: seq<Vec>)
    requires Tree(ls) && |root| == 6
  {
    Fits(ls, q) && forall i :: 0 <= i < |ls| ==> JointBalanced(ls, root, q, i)
  }

  // ---------------------------------------------------------------- the recursion

  /** Articulated inertia of body `i` after its children numbered `k` or higher were absorbed. */
  function Inertia(ls: seq<Link>, i: nat, k: nat): (r: Mat)
    requires Tree(ls) && i < k <= |ls|
    ensures IsMat(r, 6, 6)
    decreases |ls| - k, 0
  {
    if k == |ls| then ls[i].inertia
    else
      var a := Inertia(ls, i, k + 1);
      if ls[k].parent == Some(i) then MatAdd(a, Congruence(ls[k].transform, Reduced(ls, k)), 6) else a
  }

  function Reduced(ls: seq<Link>, k: nat): (r: Mat)
    requires Tree(ls) && k < |ls|
    ensures IsMat(r, 6, 6)
    decreases |ls| - k - 1, 1
  {
    ReducedInertia(Inertia(ls, k, k + 1), ls[k].subspace)
  }

  function Bias(ls: seq<Link>, i: nat, k: nat): (r: Vec)
    requires Tree(ls) && i < k <= |ls|
    ensures |r| == 6
    decreases |ls| - k, 0
  {
    if k == |ls| then BodyBias(ls, i)
    else
      var p := Bias(ls, i, k + 1);
      if ls[k].parent == Some(i) then Add(p, ToParent(ls[k].transform, PassedBias(ls, k))) else p
  }

  function PassedBias(ls: seq<Link>, k: nat): (r: Vec)
    requires Tree(ls) && k < |ls|
    ensures |r| == 6
    decreases |ls| - k - 1, 1
  {
    ReducedBias(Inertia(ls, k, k + 1), Bias(ls, k, k + 1), ls[k].subspace, Coriolis(ls, k), ls[k].force)
  }

  /** Every joint matrix met by the backward pass from body `k` on can be inverted. */
  ghost predicate Solvable(ls: seq<Link>, k: nat)
    requires Tree(ls) && k <= |ls|
  {
    forall i :: k <= i < |ls| ==> Nonsingular(JointMatrix(Inertia(ls, i, i + 1), ls[i].subspace))
  }

  /** Carried acceleration of body `i` from the accelerations `a` of the bodies before it. */
  function Carried(ls: seq<Link>, root: Vec, i: nat, a: seq<Vec>): (r: Vec)
    requires Tree(ls) && |root| == 6 && i < |ls| && i <= |a| && Dim(a, 6)
    ensures |r| == 6
  {
    var above := match ls[i].parent
      case None => root
      case Some(p) => a[p];
    Add(MatVec(ls[i].transform, above), Coriolis(ls, i))
  }

  function SolvedAt(ls: seq<Link>, i: nat, carried: Vec): (r: Vec)
    requires Tree(ls) && |carried| == 6 && i < |ls|
    ensures |r| == |ls[i].subspace|
  {
    JointAcceleration(Inertia(ls, i, i + 1), Bias(ls, i, i + 1), ls[i].subspace, ls[i].force, carried)
  }

  function Moved(ls: seq<Link>, i: nat, carried: Vec): (r: Vec)
    requires Tree(ls) && |carried| == 6 && i < |ls|
    ensures |r| == 6
  {
    Add(carried, Comb(SolvedAt(ls, i, carried), ls[i].subspace, 6))
  }

  function NextAcceleration(ls: seq<Link>, root: Vec, a: seq<Vec>): (r: Vec)
    requires Tree(ls) && |root| == 6 && |a| < |ls| && Dim(a, 6)
    ensures |r| == 6
  {
    Moved(ls, |a|, Carried(ls, root, |a|, a))
  }

  /** Body accelerations of the first `n` bodies, in body order. */
  function BodyAccelerations(ls: seq<Link>, root: Vec, n: nat): (a: seq<Vec>)
    requires Tree(ls) && |root| == 6 && n <= |ls|
    ensures |a| == n && Dim(a, 6)
  {
    if n == 0 then [] else Extended(ls, root, BodyAccelerations(ls, root, n - 1))
  }

  function Extended(ls: seq<Link>, root: Vec, a: seq<Vec>): (r: seq<Vec>)
    requires Tree(ls) && |root| == 6 && |a| < |ls| && Dim(a, 6)
    ensures |r| == |a| + 1 && Dim(r, 6)
  {
    a + [NextAcceleration(ls, root, a)]
  }

  function SolvedJoint(ls: seq<Link>, root: Vec, i: nat): (r: Vec)
    requires Tree(ls) && |root| == 6 && i < |ls|
    ensures |r| == |ls[i].subspace|
  {
    SolvedAt(ls, i, Carried(ls, root, i, BodyAccelerations(ls, root, i)))
  }

  /** What the three passes return: the joint acceleration of every body. */
  function JointAccelerations(ls: seq<Link>, root: Vec): (q: seq<Vec>)
    requires Tree(ls) && |root| == 6
    ensures Fits(ls, q)
    ensures forall i :: 0 <= i < |ls| ==> q[i] == SolvedJoint(ls, root, i)
  {
    seq(|ls|, i requires 0 <= i < |ls| => SolvedJoint(ls, root, i))
  }

  // ---------------------------------------------------------------- symmetry and definiteness

  ghost predicate SymmetricBodies(ls: seq<Link>)
    requires Tree(ls)
  {
    forall i :: 0 <= i < |ls| ==> Symmetric(ls[i].inertia, 6)
  }

  ghost predicate PhysicalBodies(ls: seq<Link>)
    requires Tree(ls)
  {
    forall i :: 0 <= i < |ls| ==> PositiveDefinite(ls[i].inertia, 6) && Independent(ls[i].subspace)
  }

  /** Absorbing children keeps every articulated inertia symmetric. */
  lemma {:induction false} InertiaSymmetric(ls: seq<Link>, i: nat, k: nat)
    requires Tree(ls) && i < k <= |ls| && SymmetricBodies(ls) && Solvable(ls, k)
    ensures Symmetric(Inertia(ls, i, k), 6)
    decreases |ls| - k
  {
    hide Symmetric, Congruence, MatAdd, ReducedInertia, Nonsingular, JointMatrix;
    if k < |ls| {
      InertiaSymmetric(ls, i, k + 1);
      if ls[k].parent == Some(i) {
        InertiaSymmetric(ls, k, k + 1);
        ReducedSymmetric(Inertia(ls, k, k + 1), ls[k].subspace);
        CongruenceAdds(Inertia(ls, i, k + 1), ls[k].transform, Reduced(ls, k));
      }
    }
  }

  /**
   * With positive definite bodies and independent joint columns, every articulated inertia is
   * positive definite when it is used, so no joint matrix the backward pass inverts is singular.
   */
  lemma {:induction false} InertiaDefinite(ls: seq<Link>, i: nat, k: nat)
    requires Tree(ls) && i < k <= |ls| && SymmetricBodies(ls) && PhysicalBodies(ls)
    ensures Solvable(ls, k)
    ensures PositiveDefinite(Inertia(ls, i, k), 6) && Symmetric(Inertia(ls, i, k), 6)
    decreases |ls| - k, 1
  {
    hide Symmetric, PositiveDefinite, Semidefinite, Congruence, MatAdd, Reduced, SymmetricBodies, PhysicalBodies,
         Solvable;
    BodyDefinite(ls, i);
    if k < |ls| {
      InertiaDefinite(ls, i, k + 1);
      ReducedDefinite(ls, k);
      if ls[k].parent == Some(i) {
        CongruenceAdds(Inertia(ls, i, k + 1), ls[k].transform, Reduced(ls, k));
      }
    }
  }

  lemma BodyDefinite(ls: seq<Link>, i: nat)
    requires Tree(ls) && i < |ls| && SymmetricBodies(ls) && PhysicalBodies(ls)
    ensures Symmetric(ls[i].inertia, 6) && PositiveDefinite(ls[i].inertia, 6)
    ensures Solvable(ls, |ls|)
  {
  }

  lemma {:induction false} ReducedDefinite(ls: seq<Link>, k: nat)
    requires Tree(ls) && k < |ls| && SymmetricBodies(ls) && PhysicalBodies(ls)
    ensures Solvable(ls, k)
    ensures Semidefinite(Reduced(ls, k), 6) && Symmetric(Reduced(ls, k), 6)
    decreases |ls| - k - 1, 2
  {
    hide Symmetric, PositiveDefinite, Semidefinite, ReducedInertia, Nonsingular, JointMatrix, Independent, Inertia;
    InertiaDefinite(ls, k, k + 1);
    var ia := Inertia(ls, k, k + 1);
    JointMatrixDefinite(ia, ls[k].subspace);
    DefiniteIsSemidefinite(ia, 6);
    ReducedSemidefinite(ia, ls[k].subspace);
    ReducedSymmetric(ia, ls[k].subspace);
  }

  lemma PhysicalIsSolvable(ls: seq<Link>)
    requires Tree(ls) && SymmetricBodies(ls) && PhysicalBodies(ls)
    ensures Solvable(ls, 0)
  {
    if |ls| > 0 {
      ReducedDefinite(ls, 0);
    }
  }

  // ---------------------------------------------------------------- the key invariant

  /** All joints numbered `k` or higher are balanced. */
  ghost predicate BalancedFrom(ls: seq<Link>, root: Vec, q: seq<Vec>, k: nat)
    requires Tree(ls) && Fits(ls, q) && |root| == 6 && k <= |ls|
  {
    forall i :: k <= i < |ls| ==> JointBalanced(ls, root, q, i)
  }

  /** What the backward pass means: the force through a joint is affine in the body's acceleration. */
  ghost predicate Affine(ls: seq<Link>, root: Vec, q: seq<Vec>, i: nat, k: nat)
    requires Tree(ls) && Fits(ls, q) && |root| == 6 && i < k <= |ls|
  {
    LinkForce(ls, root, q, i, k)
    == Add(MatVec(Inertia(ls, i, k), Acceleration(ls, root, q, i)), Bias(ls, i, k))
  }

  /** Recursion value of the joint acceleration of body `i`, given the motion `q` of the bodies above. */
  function Wanted(ls: seq<Link>, root: Vec, q: seq<Vec>, i: nat): (r: Vec)
    requires Tree(ls) && Fits(ls, q) && |root| == 6 && i < |ls|
  {
    SolvedAt(ls, i, CarriedAcceleration(ls, root, q, i))
  }

  lemma BalancedIffWanted(ls: seq<Link>, root: Vec, q: seq<Vec>, i: nat)
    requires Tree(ls) && Fits(ls, q) && |root| == 6 && i < |ls|
    requires SymmetricBodies(ls) && Solvable(ls, i)
    requires Affine(ls, root, q, i, i + 1)
    ensures JointBalanced(ls, root, q, i) <==> q[i] == Wanted(ls, root, q, i)
  {
    hide Symmetric, Inertia, Bias, LinkForce, CarriedAcceleration, JointAcceleration, Nonsingular, JointMatrix, MatVec,
         Comb;
    InertiaSymmetric(ls, i, i + 1);
    JointEquation(Inertia(ls, i, i + 1), Bias(ls, i, i + 1), ls[i].subspace, ls[i].force,
                  CarriedAcceleration(ls, root, q, i), q[i]);
  }

  /** If the joints from `k` on are balanced, every force through a joint below is affine as the pass says. */
  lemma {:induction false} ForceIsAffine(ls: seq<Link>, root: Vec, q: seq<Vec>, i: nat, k: nat)
    requires Tree(ls) && Fits(ls, q) && |root| == 6 && i < k <= |ls|
    requires SymmetricBodies(ls) && Solvable(ls, k) && BalancedFrom(ls, root, q, k)
    ensures Affine(ls, root, q, i, k)
    decreases |ls| - k
  {
    hide Symmetric, CarriedAcceleration, Acceleration, JointAcceleration, Nonsingular, JointMatrix, MatVec, Comb,
      Congruence, ToParent, MatAdd, ReducedInertia, ReducedBias, BodyBias, Coriolis;
    if k < |ls| {
      ForceIsAffine(ls, root, q, i, k + 1);
      if ls[k].parent == Some(i) {
        ForceIsAffine(ls, root, q, k, k + 1);
        ChildForce(ls, root, q, i, k);
        AbsorbChild(Inertia(ls, i, k + 1), Bias(ls, i, k + 1), ls[k].transform, Reduced(ls, k),
                    PassedBias(ls, k), Acceleration(ls, root, q, i));
      }
    }
  }

  lemma ChildForce(ls: seq<Link>, root: Vec, q: seq<Vec>, i: nat, k: nat)
    requires Tree(ls) && Fits(ls, q) && |root| == 6 && i < k < |ls| && ls[k].parent == Some(i)
    requires SymmetricBodies(ls) && Solvable(ls, k)
    requires Affine(ls, root, q, k, k + 1) && JointBalanced(ls, root, q, k)
    ensures LinkForce(ls, root, q, k, k + 1)
            == Add(MatVec(Reduced(ls, k), MatVec(ls[k].transform, Acceleration(ls, root, q, i))), PassedBias(ls, k))
  {
    hide Symmetric, Inertia, Bias, LinkForce, JointAcceleration, Nonsingular, JointMatrix, MatVec, Comb, Coriolis,
      ReducedInertia, ReducedBias;
    BalancedIffWanted(ls, root, q, k);
    ReducedForce(Inertia(ls, k, k + 1), Bias(ls, k, k + 1), ls[k].subspace, Coriolis(ls, k), ls[k].force,
                 MatVec(ls[k].transform, Acceleration(ls, root, q, i)));
  }

  lemma AbsorbChild(ia: Mat, p: Vec, x: Mat, red: Mat, bias: Vec, a: Vec)
    requires IsMat(ia, 6, 6) && IsMat(x, 6, 6) && IsMat(red, 6, 6) && |p| == |bias| == |a| == 6
    ensures Add(Add(MatVec(ia, a), p), ToParent(x, Add(MatVec(red, MatVec(x, a)), bias)))
            == Add(MatVec(MatAdd(ia, Congruence(x, red), 6), a), Add(p, ToParent(x, bias)))
  {
    hide MatVec, MatAdd, Congruence, ToParent;
    ToParentAdd(x, MatVec(red, MatVec(x, a)), bias);
    CongruenceActs(x, red, a);
    MatAddVec(ia, Congruence(x, red), a);
    Regroup(MatVec(ia, a), p, ToParent(x, MatVec(red, MatVec(x, a))), ToParent(x, bias));
  }

  lemma Regroup(a: Vec, b: Vec, c: Vec, d: Vec)
    requires |a| == |b| == |c| == |d|
    ensures Add(Add(a, b), Add(c, d)) == Add(Add(a, c), Add(b, d))
  {
  }

  // ---------------------------------------------------------------- main results

  /** If the motion follows the recursion up to body `n`, its accelerations are the forward pass's. */
  lemma {:induction false} ForwardPassFollows(ls: seq<Link>, root: Vec, q: seq<Vec>, n: nat)
    requires Tree(ls) && Fits(ls, q) && |root| == 6 && n <= |ls|
    requires forall i :: 0 <= i < n ==> q[i] == SolvedJoint(ls, root, i) || q[i] == Wanted(ls, root, q, i)
    ensures forall i :: 0 <= i < n ==> BodyAccelerations(ls, root, n)[i] == Acceleration(ls, root, q, i)
    ensures forall i :: 0 <= i < n ==> q[i] == SolvedJoint(ls, root, i) == Wanted(ls, root, q, i)
  {
    hide SolvedAt, MatVec, Comb, Coriolis, Moved, Carried, CarriedAcceleration, Acceleration, Wanted, SolvedJoint;
    if n > 0 {
      ForwardPassFollows(ls, root, q, n - 1);
      ForwardStepFollows(ls, root, q, n - 1);
    }
  }

  lemma ForwardStepFollows(ls: seq<Link>, root: Vec, q: seq<Vec>, i: nat)
    requires Tree(ls) && Fits(ls, q) && |root| == 6 && i < |ls|
    requires forall j :: 0 <= j < i ==> BodyAccelerations(ls, root, i)[j] == Acceleration(ls, root, q, j)
    requires q[i] == SolvedJoint(ls, root, i) || q[i] == Wanted(ls, root, q, i)
    ensures q[i] == SolvedJoint(ls, root, i) == Wanted(ls, root, q, i)
    ensures Moved(ls, i, Carried(ls, root, i, BodyAccelerations(ls, root, i))) == Acceleration(ls, root, q, i)
  {
    hide SolvedAt, MatVec, Comb, Coriolis, BodyAccelerations;
    var a := BodyAccelerations(ls, root, i);
    assert Carried(ls, root, i, a) == CarriedAcceleration(ls, root, q, i);
  }

  lemma {:induction false} WantedIsBalanced(ls: seq<Link>, root: Vec, q: seq<Vec>, k: nat)
    requires Tree(ls) && Fits(ls, q) && |root| == 6 && k <= |ls|
    requires SymmetricBodies(ls) && Solvable(ls, k)
    requires forall i :: k <= i < |ls| ==> q[i] == Wanted(ls, root, q, i)
    ensures BalancedFrom(ls, root, q, k)
    decreases |ls| - k
  {
    hide Symmetric, Wanted, Affine, JointBalanced, Nonsingular, JointMatrix, Inertia;
    if k < |ls| {
      WantedIsBalanced(ls, root, q, k + 1);
      ForceIsAffine(ls, root, q, k, k + 1);
      BalancedIffWanted(ls, root, q, k);
    }
  }

  /**
   * Joint accelerations satisfy the equations of motion of the whole tree if and only if they are
   * the ones the three passes return: the recursion is correct and its answer is the only one.
   */
  lemma SolvesEquationsOfMotion(ls: seq<Link>, root: Vec, q: seq<Vec>)
    requires Tree(ls) && |root| == 6 && SymmetricBodies(ls) && Solvable(ls, 0)
    ensures EquationsOfMotion(ls, root, q) <==> q == JointAccelerations(ls, root)
  {
    hide Symmetric, Wanted, Affine, JointBalanced, Nonsingular, JointMatrix, Inertia, SolvedJoint;
    if q == JointAccelerations(ls, root) {
      ForwardPassFollows(ls, root, q, |ls|);
      WantedIsBalanced(ls, root, q, 0);
    }
    if EquationsOfMotion(ls, root, q) {
      forall i | 0 <= i < |ls|
        ensures q[i] == Wanted(ls, root, q, i)
      {
        ForceIsAffine(ls, root, q, i, i + 1);
        BalancedIffWanted(ls, root, q, i);
      }
      ForwardPassFollows(ls, root, q, |ls|);
      assert q == JointAccelerations(ls, root);
    }
  }
}
