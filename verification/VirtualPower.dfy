/** The equations of motion of a tree as mechanics states them: each body's laws, virtual power, and power balance. */
module VirtualPower {
  import opened Wrappers
  import opened LinearAlgebra
  import opened SpatialAlgebra
  import opened ArticulatedStep
  import opened ArticulatedTree
  import opened NewtonEuler

  // ---------------------------------------------------------------- kinematics

  /** Velocity of body `i` if the joints moved at the rates `y`. */
  function VirtualVelocity(ls: seq<Link>, y: seq<Vec>, i: nat): (r: Vec)
    requires Tree(ls) && Fits(ls, y) && i < |ls|
    ensures |r| == 6
    decreases i, 1
  {
    Add(CarriedVelocity(ls, y, i), Comb(y[i], ls[i].subspace, 6))
  }

  /** What the parent's motion contributes to it. */
  function CarriedVelocity(ls: seq<Link>, y: seq<Vec>, i: nat): (r: Vec)
    requires Tree(ls) && Fits(ls, y) && i < |ls|
    ensures |r| == 6
    decreases i, 0
  {
    match ls[i].parent
    case None => Zeros(6)
    case Some(p) => MatVec(ls[i].transform, VirtualVelocity(ls, y, p))
  }

  function Rates(ls: seq<Link>): (y: seq<Vec>)
    requires Tree(ls)
    ensures Fits(ls, y) && forall i :: 0 <= i < |ls| ==> y[i] == ls[i].rate
  {
    seq(|ls|, i requires 0 <= i < |ls| => ls[i].rate)
  }

  lemma {:induction false} VelocityIsVirtual(ls: seq<Link>, i: nat)
    requires Tree(ls) && i < |ls|
    ensures Velocity(ls, i) == VirtualVelocity(ls, Rates(ls), i)
  {
    hide MatVec, Comb;
    if ls[i].parent.Some? {
      VelocityIsVirtual(ls, ls[i].parent.value);
    }
  }

  lemma Opposite(a: Vec, b: Vec, c: Vec, d: Vec)
    requires |a| == |b| == |c| == |d| == 3
    requires a == Scale(-1.0, c) && b == Scale(-1.0, d)
    ensures Add(a, b) == Scale(-1.0, Add(d, c))
  {
  }

  lemma OppositeHalves(a: Vec, b: Vec, c: Vec, d: Vec)
    requires |a| == |b| == |c| == |d| == 3
    requires a == Scale(-1.0, c) && b == Scale(-1.0, d)
    ensures a + b == Scale(-1.0, c + d)
  {
  }

  /** Crossing motions is antisymmetric. */
  lemma CrossSwaps(x: Vec, y: Vec)
    requires |x| == |y| == 6
    ensures MatVec(MotionCross(x), y) == Scale(-1.0, MatVec(MotionCross(y), x))
  {
    hide MatVec, MotionCross, Cross, Scale;
    var w, u, w2, u2 := x[..3], x[3..], y[..3], y[3..];
    assert x == w + u && y == w2 + u2;
    MotionCrossActs(w, u, w2, u2);
    MotionCrossActs(w2, u2, w, u);
    CrossLinear(w2, w, 1.0);
    CrossLinear(w2, u, 1.0);
    CrossLinear(u2, w, 1.0);
    Opposite(Cross(u, w2), Cross(w, u2), Cross(w2, u), Cross(u2, w));
    OppositeHalves(Cross(w, w2), Add(Cross(u, w2), Cross(w, u2)), Cross(w2, w), Add(Cross(u2, w), Cross(w2, u)));
  }

  lemma CrossCarried(carried: Vec, joint: Vec)
    requires |carried| == |joint| == 6
    ensures MatVec(MotionCross(Add(carried, joint)), joint) == Scale(-1.0, MatVec(MotionCross(joint), carried))
  {
    hide MatVec, MotionCross;
    CrossSwaps(Add(carried, joint), joint);
    MatVecAdd(MotionCross(joint), carried, joint);
    SelfCross(joint);
    assert Add(MatVec(MotionCross(joint), carried), Zeros(6)) == MatVec(MotionCross(joint), carried);
  }

  /** The velocity-product acceleration is what a moving child frame makes of the carried velocity. */
  lemma CoriolisLaw(ls: seq<Link>, i: nat)
    requires Tree(ls) && i < |ls|
    ensures var joint := Comb(ls[i].rate, ls[i].subspace, 6);
            Coriolis(ls, i) == Scale(-1.0, MatVec(MotionCross(joint), CarriedVelocity(ls, Rates(ls), i)))
  {
    hide MatVec, Comb, MotionCross, Velocity, VirtualVelocity;
    VelocityIsVirtual(ls, i);
    VirtualStep(ls, Rates(ls), i);
    CrossCarried(CarriedVelocity(ls, Rates(ls), i), Comb(ls[i].rate, ls[i].subspace, 6));
  }

  lemma VirtualStep(ls: seq<Link>, y: seq<Vec>, i: nat)
    requires Tree(ls) && Fits(ls, y) && i < |ls|
    ensures VirtualVelocity(ls, y, i) == Add(CarriedVelocity(ls, y, i), Comb(y[i], ls[i].subspace, 6))
  {
  }

  /** Accelerating joints add to a body's acceleration what rates add to its velocity. */
  lemma {:induction false} AccelerationIsAffine(ls: seq<Link>, root: Vec, q: seq<Vec>, i: nat)
    requires Tree(ls) && Fits(ls, q) && |root| == 6 && i < |ls|
    ensures Acceleration(ls, root, q, i)
            == Add(Add(VirtualVelocity(ls, q, i), CarriedRoot(ls, root, i)), Drift(ls, i))
  {
    hide MatVec, Comb, Coriolis, Acceleration, VirtualVelocity, CarriedRoot, Drift, CarriedVelocity;
    var joint, turned := Comb(q[i], ls[i].subspace, 6), Coriolis(ls, i);
    AccelerationStep(ls, root, q, i);
    VirtualStep(ls, q, i);
    DriftStep(ls, root, q, i);
    if ls[i].parent.Some? {
      var p := ls[i].parent.value;
      AccelerationIsAffine(ls, root, q, p);
      ThreeCarried(ls[i].transform, VirtualVelocity(ls, q, p), CarriedRoot(ls, root, p), Drift(ls, p));
      RegroupThree(MatVec(ls[i].transform, VirtualVelocity(ls, q, p)), CarriedRoot(ls, root, i),
                   MatVec(ls[i].transform, Drift(ls, p)), turned, joint);
    } else {
      RegroupTwo(CarriedRoot(ls, root, i), turned, joint);
    }
  }

  lemma AccelerationStep(ls: seq<Link>, root: Vec, q: seq<Vec>, i: nat)
    requires Tree(ls) && Fits(ls, q) && |root| == 6 && i < |ls|
    ensures var above := if ls[i].parent.None? then root else Acceleration(ls, root, q, ls[i].parent.value);
            Acceleration(ls, root, q, i)
            == Add(Add(MatVec(ls[i].transform, above), Coriolis(ls, i)), Comb(q[i], ls[i].subspace, 6))
  {
    hide MatVec, Comb, Coriolis;
  }

  lemma DriftStep(ls: seq<Link>, root: Vec, q: seq<Vec>, i: nat)
    requires Tree(ls) && Fits(ls, q) && |root| == 6 && i < |ls|
    ensures ls[i].parent.None? ==>
              Drift(ls, i) == Coriolis(ls, i) && CarriedRoot(ls, root, i) == MatVec(ls[i].transform, root)
              && CarriedVelocity(ls, q, i) == Zeros(6)
    ensures ls[i].parent.Some? ==>
              var p := ls[i].parent.value;
              && Drift(ls, i) == Add(MatVec(ls[i].transform, Drift(ls, p)), Coriolis(ls, i))
              && CarriedRoot(ls, root, i) == MatVec(ls[i].transform, CarriedRoot(ls, root, p))
              && CarriedVelocity(ls, q, i) == MatVec(ls[i].transform, VirtualVelocity(ls, q, p))
  {
    hide MatVec, Comb, Coriolis, VirtualVelocity;
    CoriolisLaw(ls, i);
  }

  lemma RegroupThree(v: Vec, r: Vec, d: Vec, turned: Vec, joint: Vec)
    requires |v| == |r| == |d| == |turned| == |joint|
    ensures Add(Add(Add(Add(v, r), d), turned), joint) == Add(Add(Add(v, joint), r), Add(d, turned))
  {
  }

  lemma RegroupTwo(r: Vec, turned: Vec, joint: Vec)
    requires |r| == |turned| == |joint|
    ensures Add(Add(r, turned), joint) == Add(Add(Add(Zeros(|joint|), joint), r), turned)
  {
  }

  lemma ThreeCarried(x: Mat, a: Vec, b: Vec, c: Vec)
    requires IsMat(x, 6, 6) && |a| == |b| == |c| == 6
    ensures MatVec(x, Add(Add(a, b), c)) == Add(Add(MatVec(x, a), MatVec(x, b)), MatVec(x, c))
  {
    MatVecAdd(x, Add(a, b), c);
    MatVecAdd(x, a, b);
  }

  /** The acceleration of the root as seen from body `i`. */
  function CarriedRoot(ls: seq<Link>, root: Vec, i: nat): (r: Vec)
    requires Tree(ls) && |root| == 6 && i < |ls|
    ensures |r| == 6
  {
    match ls[i].parent
    case None => MatVec(ls[i].transform, root)
    case Some(p) => MatVec(ls[i].transform, CarriedRoot(ls, root, p))
  }

  /** What moving at the current rates contributes: each joint turns what its parent carries. */
  function Drift(ls: seq<Link>, i: nat): (r: Vec)
    requires Tree(ls) && i < |ls|
    ensures |r| == 6
  {
    var joint := Comb(ls[i].rate, ls[i].subspace, 6);
    var turned := Scale(-1.0, MatVec(MotionCross(joint), CarriedVelocity(ls, Rates(ls), i)));
    match ls[i].parent
    case None => turned
    case Some(p) => Add(MatVec(ls[i].transform, Drift(ls, p)), turned)
  }

  // ---------------------------------------------------------------- what one body needs

  /** The force a body needs for its own motion, without what its children pull on it. */
  function Need(ls: seq<Link>, root: Vec, q: seq<Vec>, i: nat): (r: Vec)
    requires Tree(ls) && Fits(ls, q) && |root| == 6 && i < |ls|
    ensures |r| == 6
  {
    LinkForce(ls, root, q, i, |ls|)
  }

  /**
   * For a rigid body, Newton's and Euler's laws: the linear half of what the body needs is its mass times the
   * acceleration of its mass centre, the angular half is the change of its angular momentum about the body
   * origin, and the applied force and moment are taken off.
   */
  lemma NewtonAndEuler(ls: seq<Link>, root: Vec, q: seq<Vec>, i: nat, mass: real, com: Vec, diag: Vec)
    requires Tree(ls) && Fits(ls, q) && |root| == 6 && i < |ls|
    requires |com| == |diag| == 3 && ls[i].inertia == SpatialInertia(mass, com, diag)
    ensures var v, a, j := Velocity(ls, i), Acceleration(ls, root, q, i), Diagonal(diag);
            var w := v[..3];
            var f := Scale(mass, CentreAcceleration(com, w, v[3..], a[..3], a[3..]));
            && Need(ls, root, q, i)[3..] == Sub(f, ls[i].external[3..])
            && Need(ls, root, q, i)[..3]
               == Sub(Add(Add(MatVec(j, a[..3]), Cross(w, MatVec(j, w))), Cross(com, f)), ls[i].external[..3])
  {
    hide Tree, Fits, WellFormed, MatVec, Cross, CentreAcceleration, SpatialInertia, Diagonal, ForceCross, Velocity,
         Acceleration, Need, Add, Sub, Scale;
    var v, a, j, m := Velocity(ls, i), Acceleration(ls, root, q, i), Diagonal(diag), ls[i].inertia;
    var w := v[..3];
    var f := Scale(mass, CentreAcceleration(com, w, v[3..], a[..3], a[3..]));
    Split(v);
    Split(a);
    RigidBodyNeeds(mass, com, diag, w, v[3..], a[..3], a[3..]);
    NeedParts(ls, root, q, i);
    LessHalves(Add(Add(MatVec(j, a[..3]), Cross(w, MatVec(j, w))), Cross(com, f)), f, ls[i].external);
  }

  lemma NeedParts(ls: seq<Link>, root: Vec, q: seq<Vec>, i: nat)
    requires Tree(ls) && Fits(ls, q) && |root| == 6 && i < |ls|
    ensures IsMat(ls[i].inertia, 6, 6) && |ls[i].external| == 6
    ensures var v, m := Velocity(ls, i), ls[i].inertia;
            Need(ls, root, q, i)
            == Sub(Add(MatVec(m, Acceleration(ls, root, q, i)), MatVec(ForceCross(v), MatVec(m, v))), ls[i].external)
  {
    hide MatVec, ForceCross, Velocity, Acceleration;
  }

  lemma LessHalves(top: Vec, bottom: Vec, e: Vec)
    requires |top| == |bottom| == 3 && |e| == 6
    ensures Sub(top + bottom, e)[..3] == Sub(top, e[..3]) && Sub(top + bottom, e)[3..] == Sub(bottom, e[3..])
  {
  }

  /** A body's need does work only through its inertia and against the applied force. */
  lemma NeedPower(ls: seq<Link>, root: Vec, q: seq<Vec>, i: nat)
    requires Tree(ls) && Fits(ls, q) && |root| == 6 && i < |ls|
    ensures var v := Velocity(ls, i);
            Dot(v, Need(ls, root, q, i))
            == Dot(v, MatVec(ls[i].inertia, Acceleration(ls, root, q, i))) - Dot(ls[i].external, v)
  {
    hide Dot, MatVec, ForceCross, Velocity, Acceleration;
    var v, m := Velocity(ls, i), ls[i].inertia;
    var a, g := MatVec(m, Acceleration(ls, root, q, i)), MatVec(ForceCross(v), MatVec(m, v));
    assert Need(ls, root, q, i) == Add(a, Sub(g, ls[i].external));
    DotAdd(v, a, Sub(g, ls[i].external));
    DotSub(v, g, ls[i].external);
    GyroscopicForceIsWorkless(v, MatVec(m, v));
    DotSymmetric(v, ls[i].external);
  }

  // ---------------------------------------------------------------- virtual power

  /** Power of the forces through the joints below `n`, counting children numbered `k` or higher. */
  function PowerBelow(ls: seq<Link>, root: Vec, q: seq<Vec>, y: seq<Vec>, n: nat, k: nat): real
    requires Tree(ls) && Fits(ls, q) && Fits(ls, y) && |root| == 6 && n <= k <= |ls|
  {
    if n == 0 then 0.0
    else PowerBelow(ls, root, q, y, n - 1, k) + Dot(VirtualVelocity(ls, y, n - 1), LinkForce(ls, root, q, n - 1, k))
  }

  /** Power transmitted along the joints numbered `k` or higher. */
  function JointPower(ls: seq<Link>, root: Vec, q: seq<Vec>, y: seq<Vec>, k: nat): real
    requires Tree(ls) && Fits(ls, q) && Fits(ls, y) && |root| == 6 && k <= |ls|
    decreases |ls| - k
  {
    if k == |ls| then 0.0
    else JointPower(ls, root, q, y, k + 1) + Dot(y[k], MatVec(ls[k].subspace, LinkForce(ls, root, q, k, k + 1)))
  }

  /** Absorbing child `k` adds its pull on its parent, when that is below `n`. */
  lemma {:induction false} ChildPower(ls: seq<Link>, root: Vec, q: seq<Vec>, y: seq<Vec>, n: nat, k: nat)
    requires Tree(ls) && Fits(ls, q) && Fits(ls, y) && |root| == 6 && n <= k < |ls|
    ensures PowerBelow(ls, root, q, y, n, k)
            == PowerBelow(ls, root, q, y, n, k + 1)
               + if ls[k].parent.Some? && ls[k].parent.value < n
                 then Dot(CarriedVelocity(ls, y, k), LinkForce(ls, root, q, k, k + 1)) else 0.0
    decreases n
  {
    hide Dot, MatVec, ToParent, VirtualVelocity, LinkForce;
    if n > 0 {
      ChildPower(ls, root, q, y, n - 1, k);
      ChildAdds(ls, root, q, y, n - 1, k);
    }
  }

  lemma ChildAdds(ls: seq<Link>, root: Vec, q: seq<Vec>, y: seq<Vec>, i: nat, k: nat)
    requires Tree(ls) && Fits(ls, q) && Fits(ls, y) && |root| == 6 && i < k < |ls|
    ensures Dot(VirtualVelocity(ls, y, i), LinkForce(ls, root, q, i, k))
            == Dot(VirtualVelocity(ls, y, i), LinkForce(ls, root, q, i, k + 1))
               + if ls[k].parent == Some(i)
                 then Dot(CarriedVelocity(ls, y, k), LinkForce(ls, root, q, k, k + 1)) else 0.0
  {
    hide Dot, MatVec, ToParent, VirtualVelocity;
    if ls[k].parent == Some(i) {
      var v, f, g := VirtualVelocity(ls, y, i), LinkForce(ls, root, q, i, k + 1), LinkForce(ls, root, q, k, k + 1);
      DotAdd(v, f, ToParent(ls[k].transform, g));
      ToParentAdjoint(ls[k].transform, g, v);
      DotSymmetric(v, ToParent(ls[k].transform, g));
      DotSymmetric(g, MatVec(ls[k].transform, v));
    }
  }

  lemma JointSplits(ls: seq<Link>, y: seq<Vec>, k: nat, f: Vec)
    requires Tree(ls) && Fits(ls, y) && k < |ls| && |f| == 6
    ensures Dot(VirtualVelocity(ls, y, k), f)
            == Dot(CarriedVelocity(ls, y, k), f) + Dot(y[k], MatVec(ls[k].subspace, f))
    ensures ls[k].parent.None? ==> Dot(CarriedVelocity(ls, y, k), f) == 0.0
  {
    hide Dot, MatVec, Comb;
    DotAdd(f, CarriedVelocity(ls, y, k), Comb(y[k], ls[k].subspace, 6));
    CombDot(y[k], ls[k].subspace, f);
    DotZeros(f);
  }

  /** From the leaves inward: power below the joints turns into power along them. */
  lemma {:induction false} PowerMoves(ls: seq<Link>, root: Vec, q: seq<Vec>, y: seq<Vec>, k: nat)
    requires Tree(ls) && Fits(ls, q) && Fits(ls, y) && |root| == 6 && k <= |ls|
    ensures PowerBelow(ls, root, q, y, k, k) + JointPower(ls, root, q, y, k)
            == PowerBelow(ls, root, q, y, |ls|, |ls|)
    decreases |ls| - k
  {
    hide Dot, MatVec, VirtualVelocity, CarriedVelocity, LinkForce;
    if k < |ls| {
      PowerMoves(ls, root, q, y, k + 1);
      ChildPower(ls, root, q, y, k, k);
      JointSplits(ls, y, k, LinkForce(ls, root, q, k, k + 1));
    }
  }

  /** Virtual power of the generalized forces of the joints numbered `k` or higher. */
  function ForcePower(ls: seq<Link>, y: seq<Vec>, k: nat): real
    requires Tree(ls) && Fits(ls, y) && k <= |ls|
    decreases |ls| - k
  {
    if k == |ls| then 0.0 else ForcePower(ls, y, k + 1) + Dot(y[k], ls[k].force)
  }

  /** Virtual power of what the bodies below `n` need. */
  function BodyPower(ls: seq<Link>, root: Vec, q: seq<Vec>, y: seq<Vec>, n: nat): real
    requires Tree(ls) && Fits(ls, q) && Fits(ls, y) && |root| == 6 && n <= |ls|
  {
    if n == 0 then 0.0
    else BodyPower(ls, root, q, y, n - 1) + Dot(VirtualVelocity(ls, y, n - 1), Need(ls, root, q, n - 1))
  }

  lemma {:induction false} BodyPowerBelow(ls: seq<Link>, root: Vec, q: seq<Vec>, y: seq<Vec>, n: nat)
    requires Tree(ls) && Fits(ls, q) && Fits(ls, y) && |root| == 6 && n <= |ls|
    ensures BodyPower(ls, root, q, y, n) == PowerBelow(ls, root, q, y, n, |ls|)
  {
    hide Dot, VirtualVelocity, LinkForce;
    if n > 0 {
      BodyPowerBelow(ls, root, q, y, n - 1);
    }
  }

  /** How far a joint is from transmitting its generalized force. */
  function ResidueAt(ls: seq<Link>, root: Vec, q: seq<Vec>, i: nat): (r: Vec)
    requires Tree(ls) && Fits(ls, q) && |root| == 6 && i < |ls|
    ensures |r| == |ls[i].subspace|
  {
    Sub(MatVec(ls[i].subspace, LinkForce(ls, root, q, i, i + 1)), ls[i].force)
  }

  function Residue(ls: seq<Link>, root: Vec, q: seq<Vec>): (y: seq<Vec>)
    requires Tree(ls) && Fits(ls, q) && |root| == 6
    ensures Fits(ls, y) && forall i :: 0 <= i < |ls| ==> y[i] == ResidueAt(ls, root, q, i)
  {
    seq(|ls|, i requires 0 <= i < |ls| => ResidueAt(ls, root, q, i))
  }

  lemma {:induction false} BalancedPower(ls: seq<Link>, root: Vec, q: seq<Vec>, y: seq<Vec>, k: nat)
    requires Tree(ls) && Fits(ls, q) && Fits(ls, y) && |root| == 6 && k <= |ls|
    requires forall i :: k <= i < |ls| ==> JointBalanced(ls, root, q, i)
    ensures JointPower(ls, root, q, y, k) == ForcePower(ls, y, k)
    decreases |ls| - k
  {
    hide Dot, MatVec, LinkForce;
    if k < |ls| {
      BalancedPower(ls, root, q, y, k + 1);
      assert JointBalanced(ls, root, q, k);
    }
  }

  lemma {:induction false} ResiduePower(ls: seq<Link>, root: Vec, q: seq<Vec>, k: nat)
    requires Tree(ls) && Fits(ls, q) && |root| == 6 && k <= |ls|
    ensures JointPower(ls, root, q, Residue(ls, root, q), k) >= ForcePower(ls, Residue(ls, root, q), k)
    ensures JointPower(ls, root, q, Residue(ls, root, q), k) == ForcePower(ls, Residue(ls, root, q), k) ==>
              forall i :: k <= i < |ls| ==> JointBalanced(ls, root, q, i)
    decreases |ls| - k
  {
    hide Dot, MatVec, LinkForce;
    if k < |ls| {
      ResiduePower(ls, root, q, k + 1);
      var y := Residue(ls, root, q);
      var x := MatVec(ls[k].subspace, LinkForce(ls, root, q, k, k + 1));
      DotSub(y[k], x, ls[k].force);
      DotSelf(y[k]);
      SubZero(x, ls[k].force);
    }
  }

  lemma SubZero(x: Vec, y: Vec)
    requires |x| == |y|
    ensures Sub(x, y) == Zeros(|x|) ==> x == y
  {
    if Sub(x, y) == Zeros(|x|) {
      forall i | 0 <= i < |x| ensures x[i] == y[i] {
        assert Sub(x, y)[i] == 0.0;
      }
    }
  }

  /**
   * The principle of virtual power: joint accelerations satisfy the equations of motion exactly when, for all
   * virtual rates, what the bodies need and what the joints supply have the same power.
   */
  lemma MotionByVirtualPower(ls: seq<Link>, root: Vec, q: seq<Vec>)
    requires Tree(ls) && Fits(ls, q) && |root| == 6
    ensures EquationsOfMotion(ls, root, q) <==>
            forall y: seq<Vec> :: Fits(ls, y) ==> BodyPower(ls, root, q, y, |ls|) == ForcePower(ls, y, 0)
  {
    hide JointBalanced, BodyPower, ForcePower, JointPower, PowerBelow, Residue;
    forall y: seq<Vec> | Fits(ls, y)
      ensures BodyPower(ls, root, q, y, |ls|) == JointPower(ls, root, q, y, 0)
    {
      PowerMoves(ls, root, q, y, 0);
      NoPower(ls, root, q, y);
      BodyPowerBelow(ls, root, q, y, |ls|);
    }
    if EquationsOfMotion(ls, root, q) {
      forall y: seq<Vec> | Fits(ls, y)
        ensures BodyPower(ls, root, q, y, |ls|) == ForcePower(ls, y, 0)
      {
        BalancedPower(ls, root, q, y, 0);
      }
    }
    ResiduePower(ls, root, q, 0);
  }

  lemma NoPower(ls: seq<Link>, root: Vec, q: seq<Vec>, y: seq<Vec>)
    requires Tree(ls) && Fits(ls, q) && Fits(ls, y) && |root| == 6
    ensures PowerBelow(ls, root, q, y, 0, 0) == 0.0
  {
  }

  /** Power into the kinetic energy of the bodies below `n`. */
  function KineticPower(ls: seq<Link>, root: Vec, q: seq<Vec>, n: nat): real
    requires Tree(ls) && Fits(ls, q) && |root| == 6 && n <= |ls|
  {
    if n == 0 then 0.0
    else KineticPower(ls, root, q, n - 1)
         + Dot(Velocity(ls, n - 1), MatVec(ls[n - 1].inertia, Acceleration(ls, root, q, n - 1)))
  }

  /** Power of the applied forces on the bodies below `n`. */
  function AppliedPower(ls: seq<Link>, n: nat): real
    requires Tree(ls) && n <= |ls|
  {
    if n == 0 then 0.0 else AppliedPower(ls, n - 1) + Dot(ls[n - 1].external, Velocity(ls, n - 1))
  }

  lemma {:induction false} PowerSplits(ls: seq<Link>, root: Vec, q: seq<Vec>, n: nat)
    requires Tree(ls) && Fits(ls, q) && |root| == 6 && n <= |ls|
    ensures BodyPower(ls, root, q, Rates(ls), n) == KineticPower(ls, root, q, n) - AppliedPower(ls, n)
  {
    hide Dot, MatVec, Need, VirtualVelocity, Acceleration, Velocity;
    if n > 0 {
      PowerSplits(ls, root, q, n - 1);
      NeedPower(ls, root, q, n - 1);
      VelocityIsVirtual(ls, n - 1);
    }
  }

  /** Power balance of the moving tree: joints and applied forces together feed the kinetic energy, nothing else. */
  lemma PowerBalances(ls: seq<Link>, root: Vec, q: seq<Vec>)
    requires Tree(ls) && |root| == 6 && EquationsOfMotion(ls, root, q)
    ensures KineticPower(ls, root, q, |ls|) == ForcePower(ls, Rates(ls), 0) + AppliedPower(ls, |ls|)
  {
    hide BodyPower, KineticPower, AppliedPower, ForcePower, JointBalanced;
    MotionByVirtualPower(ls, root, q);
    PowerSplits(ls, root, q, |ls|);
  }
}
