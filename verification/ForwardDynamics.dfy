/** `articulated_body_forward_dynamics`: from an oracle case to the generalized accelerations. */
module ForwardDynamics {
  import opened Wrappers
  import opened LinearAlgebra
  import opened LinearSolve
  import opened SpatialAlgebra
  import opened Rotations
  import opened ArticulatedStep
  import opened ArticulatedTree
  import opened Passes

  datatype Body = Body(parent: Option<nat>, joint: string, axis: Vec, inertia: Mat,
                       fixedRotation: Mat, fixedTranslation: Vec)

  datatype Case = Case(bodies: seq<Body>, q: Vec, qd: Vec, forces: Vec, rootAcceleration: Vec,
                       externalForces: seq<Vec>)

  /** The real functions of the script's math library. */
  datatype Analysis = Analysis(sin: real -> real, cos: real -> real, sqrt: real -> real)

  datatype Outcome = Accelerations(qdd: Vec) | UnsupportedJoint | CountMismatch | SingularMatrix

  function JointSizes(joint: string): Option<(nat, nat)> {
    if joint == "free" then Some((7, 6))
    else if joint == "revolute" || joint == "prismatic" then Some((1, 1))
    else if joint == "spherical" then Some((4, 3))
    else if joint == "welded" then Some((0, 0))
    else None
  }

  /** The first `n` bodies have joints of known kinds. */
  predicate SupportedUpTo(bodies: seq<Body>, n: nat)
    requires n <= |bodies|
  {
    forall i :: 0 <= i < n ==> JointSizes(bodies[i].joint).Some?
  }

  predicate Supported(bodies: seq<Body>) {
    SupportedUpTo(bodies, |bodies|)
  }

  /** Coordinate counts of the first `n` bodies: where body `n` starts in `q` and in `qd`. */
  function Counts(bodies: seq<Body>, n: nat): (nat, nat)
    requires n <= |bodies| && SupportedUpTo(bodies, n)
  {
    if n == 0 then (0, 0)
    else
      var (a, b) := Counts(bodies, n - 1);
      var (k, m) := JointSizes(bodies[n - 1].joint).value;
      (a + k, b + m)
  }

  lemma {:induction false} CountsGrow(bodies: seq<Body>, i: nat, n: nat)
    requires i <= n <= |bodies| && Supported(bodies)
    ensures Counts(bodies, i).0 <= Counts(bodies, n).0 && Counts(bodies, i).1 <= Counts(bodies, n).1
  {
    if i < n {
      CountsGrow(bodies, i, n - 1);
    }
  }

  lemma NextCounts(bodies: seq<Body>, i: nat)
    requires i < |bodies| && Supported(bodies)
    ensures Counts(bodies, i + 1).0 == Counts(bodies, i).0 + JointSizes(bodies[i].joint).value.0
    ensures Counts(bodies, i + 1).1 == Counts(bodies, i).1 + JointSizes(bodies[i].joint).value.1
    ensures Counts(bodies, i + 1).0 <= Counts(bodies, |bodies|).0
    ensures Counts(bodies, i + 1).1 <= Counts(bodies, |bodies|).1
  {
    hide JointSizes;
    CountsGrow(bodies, i + 1, |bodies|);
  }

  /** Accumulates the counters body by body and stops at an unsupported joint. */
  method Offsets(bodies: seq<Body>) returns (r: Option<(seq<nat>, seq<nat>, nat, nat)>)
    ensures r.Some? <==> Supported(bodies)
    ensures r.Some? ==> |r.value.0| == |r.value.1| == |bodies|
    ensures r.Some? ==> forall i :: 0 <= i < |bodies| ==> (r.value.0[i], r.value.1[i]) == Counts(bodies, i)
    ensures r.Some? ==> (r.value.2, r.value.3) == Counts(bodies, |bodies|)
  {
    hide JointSizes;
    var qOffsets: seq<nat>, qdOffsets: seq<nat> := [], [];
    var qTotal: nat, qdTotal: nat := 0, 0;
    for n := 0 to |bodies|
      invariant SupportedUpTo(bodies, n)
      invariant |qOffsets| == |qdOffsets| == n
      invariant forall i :: 0 <= i < n ==> (qOffsets[i], qdOffsets[i]) == Counts(bodies, i)
      invariant (qTotal, qdTotal) == Counts(bodies, n)
    {
      qOffsets := qOffsets + [qTotal];
      qdOffsets := qdOffsets + [qdTotal];
      if JointSizes(bodies[n].joint).None? {
        return None;
      }
      var (qLen, qdLen) := JointSizes(bodies[n].joint).value;
      qTotal := qTotal + qLen;
      qdTotal := qdTotal + qdLen;
    }
    return Some((qOffsets, qdOffsets, qTotal, qdTotal));
  }

  // ---------------------------------------------------------------- joints

  function Normalised(f: Analysis, v: Vec): (r: Vec)
    requires f.sqrt(Dot(v, v)) != 0.0
    ensures |r| == |v|
  {
    Scale(1.0 / f.sqrt(Dot(v, v)), v)
  }

  /** What a caller must supply for a body: matrices of the right size and an axis that is not zero. */
  ghost predicate UsableBody(f: Analysis, b: Body) {
    && IsMat(b.inertia, 6, 6) && IsMat(b.fixedRotation, 3, 3) && |b.fixedTranslation| == 3
    && (b.joint == "revolute" || b.joint == "prismatic" ==> |b.axis| == 3 && f.sqrt(Dot(b.axis, b.axis)) != 0.0)
  }

  /** The coordinates of a joint, with a quaternion that is not zero. */
  ghost predicate UsableCoordinates(f: Analysis, joint: string, q: Vec) {
    && JointSizes(joint).Some? && |q| == JointSizes(joint).value.0
    && (joint == "free" || joint == "spherical" ==> f.sqrt(Dot(q[..4], q[..4])) != 0.0)
  }

  function JointTransform(f: Analysis, b: Body, q: Vec): (r: (Mat, Vec))
    requires UsableBody(f, b) && UsableCoordinates(f, b.joint, q)
    ensures IsMat(r.0, 3, 3) && |r.1| == 3
  {
    if b.joint == "free" then (Transpose(QuaternionRotation(Normalised(f, q[..4])), 3), q[4..7])
    else if b.joint == "revolute" then
      (AxisRotation(Normalised(f, b.axis), f.cos(q[0]), f.sin(q[0])), Zeros(3))
    else if b.joint == "prismatic" then (Identity(3), Scale(q[0], Normalised(f, b.axis)))
    else if b.joint == "spherical" then (Transpose(QuaternionRotation(Normalised(f, q[..4])), 3), Zeros(3))
    else (Identity(3), Zeros(3))
  }

  function UnitColumns(n: nat): (r: seq<Vec>)
    requires n <= 6
    ensures |r| == n && Dim(r, 6)
    ensures forall i :: 0 <= i < n ==> r[i] == Unit(6, i)
  {
    seq(n, i requires 0 <= i < n => Unit(6, i))
  }

  /** The motions a joint allows, as columns. */
  function JointSubspace(f: Analysis, b: Body): (r: seq<Vec>)
    requires UsableBody(f, b) && JointSizes(b.joint).Some?
    ensures |r| == JointSizes(b.joint).value.1 && Dim(r, 6)
  {
    if b.joint == "free" then UnitColumns(6)
    else if b.joint == "revolute" then [Normalised(f, b.axis) + Zeros(3)]
    else if b.joint == "prismatic" then [Zeros(3) + Normalised(f, b.axis)]
    else if b.joint == "spherical" then UnitColumns(3)
    else []
  }

  // ---------------------------------------------------------------- slices of the flat vectors

  /** The vectors of the case have the lengths the joints call for. */
  ghost predicate Counted(c: Case) {
    && Supported(c.bodies)
    && |c.q| == Counts(c.bodies, |c.bodies|).0
    && |c.qd| == |c.forces| == Counts(c.bodies, |c.bodies|).1
  }

  function QOf(c: Case, i: nat): (r: Vec)
    requires Counted(c) && i < |c.bodies|
    ensures |r| == JointSizes(c.bodies[i].joint).value.0
  {
    CountsGrow(c.bodies, i + 1, |c.bodies|);
    c.q[Counts(c.bodies, i).0..Counts(c.bodies, i + 1).0]
  }

  /** The part of a velocity-sized vector that belongs to body `i`. */
  function SliceOf(c: Case, y: Vec, i: nat): (r: Vec)
    requires Counted(c) && |y| == |c.qd| && i < |c.bodies|
    ensures |r| == JointSizes(c.bodies[i].joint).value.1
  {
    CountsGrow(c.bodies, i + 1, |c.bodies|);
    y[Counts(c.bodies, i).1..Counts(c.bodies, i + 1).1]
  }

  function Slices(c: Case, y: Vec): (r: seq<Vec>)
    requires Counted(c) && |y| == |c.qd|
    ensures |r| == |c.bodies|
    ensures forall i :: 0 <= i < |r| ==> r[i] == SliceOf(c, y, i)
  {
    seq(|c.bodies|, i requires 0 <= i < |c.bodies| => SliceOf(c, y, i))
  }

  lemma {:induction false} PrefixFromSlices(c: Case, y: Vec, z: Vec, n: nat)
    requires Counted(c) && |y| == |z| == |c.qd| && n <= |c.bodies|
    requires forall i :: 0 <= i < n ==> SliceOf(c, y, i) == SliceOf(c, z, i)
    ensures Counts(c.bodies, n).1 <= |y|
    ensures y[..Counts(c.bodies, n).1] == z[..Counts(c.bodies, n).1]
  {
    CountsGrow(c.bodies, n, |c.bodies|);
    if n > 0 {
      PrefixFromSlices(c, y, z, n - 1);
      var a, b := Counts(c.bodies, n - 1).1, Counts(c.bodies, n).1;
      assert y[..b] == y[..a] + SliceOf(c, y, n - 1);
      assert z[..b] == z[..a] + SliceOf(c, z, n - 1);
    }
  }

  /** A velocity-sized vector is its slices: no component is lost or shared. */
  lemma SlicesDetermine(c: Case, y: Vec, z: Vec)
    requires Counted(c) && |y| == |z| == |c.qd|
    ensures Slices(c, y) == Slices(c, z) <==> y == z
  {
    if Slices(c, y) == Slices(c, z) {
      forall i | 0 <= i < |c.bodies|
        ensures SliceOf(c, y, i) == SliceOf(c, z, i)
      {
        assert Slices(c, y)[i] == Slices(c, z)[i];
      }
      PrefixFromSlices(c, y, z, |c.bodies|);
      assert y[..|y|] == y && z[..|z|] == z;
    }
  }

  // ---------------------------------------------------------------- the tree of a case

  ghost predicate Usable(f: Analysis, c: Case) {
    && |c.rootAcceleration| == 6 && |c.externalForces| >= |c.bodies|
    && (forall i :: 0 <= i < |c.bodies| ==>
          && UsableBody(f, c.bodies[i]) && |c.externalForces[i]| == 6
          && (c.bodies[i].parent.Some? ==> c.bodies[i].parent.value < i))
    && (Counted(c) ==> forall i :: 0 <= i < |c.bodies| ==> UsableCoordinates(f, c.bodies[i].joint, QOf(c, i)))
  }

  /** A body with its joint, from its parts of the flat vectors. */
  function LinkFrom(f: Analysis, b: Body, q: Vec, qd: Vec, force: Vec, external: Vec): (r: Link)
    requires UsableBody(f, b) && UsableCoordinates(f, b.joint, q)
    requires |qd| == |force| == JointSizes(b.joint).value.1 && |external| == 6
    ensures |r.subspace| == JointSizes(b.joint).value.1 && r.parent == b.parent && r.inertia == b.inertia
    ensures b.parent.Some? ==> WellFormed(r, b.parent.value + 1)
    ensures b.parent.None? ==> WellFormed(r, 0)
  {
    var (jointRotation, jointTranslation) := JointTransform(f, b, q);
    var (rotation, translation) := Compose(b.fixedRotation, b.fixedTranslation, jointRotation, jointTranslation);
    Link(b.parent, b.inertia, MotionTransform(rotation, translation), JointSubspace(f, b), qd, force, external)
  }

  function LinkOf(f: Analysis, c: Case, i: nat): (r: Link)
    requires Usable(f, c) && Counted(c) && i < |c.bodies|
    ensures WellFormed(r, i)
    ensures |r.subspace| == JointSizes(c.bodies[i].joint).value.1
  {
    LinkFrom(f, c.bodies[i], QOf(c, i), SliceOf(c, c.qd, i), SliceOf(c, c.forces, i), c.externalForces[i])
  }

  function Links(f: Analysis, c: Case): (r: seq<Link>)
    requires Usable(f, c) && Counted(c)
    ensures |r| == |c.bodies| && Tree(r)
    ensures forall i :: 0 <= i < |r| ==> r[i] == LinkOf(f, c, i)
  {
    seq(|c.bodies|, i requires 0 <= i < |c.bodies| => LinkOf(f, c, i))
  }

  // ---------------------------------------------------------------- outward acceleration pass

  /** Writing into the slice of body `i` leaves the slices of the bodies before it alone. */
  lemma EarlierSlicesKept(c: Case, y: Vec, i: nat, at: nat, value: real)
    requires Counted(c) && |y| == |c.qd| && i < |c.bodies|
    requires Counts(c.bodies, i).1 <= at < |y|
    ensures forall j :: 0 <= j < i ==> SliceOf(c, y[at := value], j) == SliceOf(c, y, j)
  {
    forall j | 0 <= j < i
      ensures SliceOf(c, y[at := value], j) == SliceOf(c, y, j)
    {
      CountsGrow(c.bodies, j + 1, i);
      CountsGrow(c.bodies, j + 1, |c.bodies|);
    }
  }

  /** Solves one joint for the acceleration carried to its body. */
  method SolveJoint(ls: seq<Link>, i: nat, above: Vec, coriolis: Vec, pass: JointPass)
    returns (carried: Vec, jointQdd: Vec)
    requires Tree(ls) && i < |ls| && Solvable(ls, i) && |above| == 6
    requires coriolis == Coriolis(ls, i) && Recorded(ls, i, pass)
    ensures carried == Add(MatVec(ls[i].transform, above), Coriolis(ls, i))
    ensures jointQdd == SolvedAt(ls, i, carried)
  {
    hide MatVec, Comb, JointMatrix, Columns, Nonsingular, Residual, Coriolis, Solve, Inertia, Bias;
    carried := Add(MatVec(ls[i].transform, above), coriolis);
    var rhs := Sub(pass.residual, MatVec(pass.columns, carried));
    SolvableIffNonsingular(pass.matrix, rhs);
    jointQdd := Solve(pass.matrix, rhs).value;
  }

  lemma CarriedFrom(ls: seq<Link>, root: Vec, i: nat, a: seq<Vec>, above: Vec)
    requires Tree(ls) && |root| == 6 && i < |ls| && a == BodyAccelerations(ls, root, i)
    requires above == if ls[i].parent.Some? then a[ls[i].parent.value] else root
    ensures |above| == 6 && Carried(ls, root, i, a) == Add(MatVec(ls[i].transform, above), Coriolis(ls, i))
    ensures SolvedJoint(ls, root, i) == SolvedAt(ls, i, Carried(ls, root, i, a))
    ensures BodyAccelerations(ls, root, i + 1) == a + [Moved(ls, i, Carried(ls, root, i, a))]
  {
    hide MatVec, Coriolis, SolvedAt, Moved;
  }

  lemma NoBodies(ls: seq<Link>, root: Vec)
    requires Tree(ls) && |root| == 6
    ensures BodyAccelerations(ls, root, 0) == []
  {
  }

  lemma MovedBody(ls: seq<Link>, i: nat, carried: Vec)
    requires Tree(ls) && i < |ls| && |carried| == 6
    ensures Moved(ls, i, carried) == Add(carried, Comb(SolvedAt(ls, i, carried), ls[i].subspace, 6))
  {
  }

  /** The slices of the first `n` bodies hold what the recursion solves for. */
  ghost predicate Written(c: Case, ls: seq<Link>, qdd: Vec, n: nat)
    requires Counted(c) && Tree(ls) && |c.rootAcceleration| == 6 && |ls| == |c.bodies| && n <= |ls|
  {
    && |qdd| == |c.qd|
    && forall j :: 0 <= j < n ==> SliceOf(c, qdd, j) == SolvedJoint(ls, c.rootAcceleration, j)
  }

  lemma WrittenAll(c: Case, ls: seq<Link>, qdd: Vec)
    requires Counted(c) && Tree(ls) && |c.rootAcceleration| == 6 && |ls| == |c.bodies|
    requires Written(c, ls, qdd, |ls|)
    ensures Slices(c, qdd) == JointAccelerations(ls, c.rootAcceleration)
  {
    hide SliceOf, SolvedJoint;
  }

  lemma WrittenNext(c: Case, ls: seq<Link>, was: Vec, now: Vec, i: nat)
    requires Counted(c) && Tree(ls) && |c.rootAcceleration| == 6 && |ls| == |c.bodies| && i < |ls|
    requires Written(c, ls, was, i) && |now| == |was| && SliceOf(c, now, i) == SolvedJoint(ls, c.rootAcceleration, i)
    requires forall j :: 0 <= j < i ==> SliceOf(c, now, j) == SliceOf(c, was, j)
    ensures Written(c, ls, now, i + 1)
  {
    hide SliceOf, SolvedJoint;
  }

  lemma SolvableFrom(ls: seq<Link>, i: nat)
    requires Tree(ls) && Solvable(ls, 0) && i <= |ls|
    ensures Solvable(ls, i)
  {
  }

  method AccelerationPass(c: Case, ls: seq<Link>, qdOffsets: seq<nat>, coriolis: seq<Vec>,
                          passes: seq<JointPass>) returns (qdd: Vec)
    requires Counted(c) && Tree(ls) && Solvable(ls, 0) && |c.rootAcceleration| == 6 && |ls| == |c.bodies|
    requires forall i :: 0 <= i < |ls| ==> |ls[i].subspace| == JointSizes(c.bodies[i].joint).value.1
    requires |qdOffsets| == |coriolis| == |passes| == |ls|
    requires forall i :: 0 <= i < |ls| ==>
               qdOffsets[i] == Counts(c.bodies, i).1 && coriolis[i] == Coriolis(ls, i) && Recorded(ls, i, passes[i])
    ensures |qdd| == |c.qd| && Slices(c, qdd) == JointAccelerations(ls, c.rootAcceleration)
  {
    hide MatVec, Comb, Nonsingular, Coriolis, JointSizes, Counts, SolvedAt, Recorded, SliceOf, Carried,
      BodyAccelerations, SolvedJoint, Moved, JointAccelerations, Slices, Counted, Solvable, Inertia, JointMatrix;
    var root := c.rootAcceleration;
    var accelerations := seq(|ls|, _ => Zeros(6));
    qdd := Zeros(|c.qd|);
    assert BodyAccelerations(ls, root, 0) == [] by { NoBodies(ls, root); }
    for i := 0 to |ls|
      invariant |accelerations| == |ls| && |qdd| == |c.qd|
      invariant accelerations[..i] == BodyAccelerations(ls, root, i)
      invariant Written(c, ls, qdd, i)
    {
      ghost var before := accelerations[..i];
      var above := root;
      if ls[i].parent.Some? {
        above := accelerations[ls[i].parent.value];
      }
      CarriedFrom(ls, root, i, before, above);
      SolvableFrom(ls, i);
      var carried, jointQdd := SolveJoint(ls, i, above, coriolis[i], passes[i]);
      MovedBody(ls, i, carried);
      var acceleration;
      ghost var was := qdd;
      qdd, acceleration := WriteJoint(c, qdd, carried, ls[i].subspace, jointQdd, i, qdOffsets[i]);
      WrittenNext(c, ls, was, qdd, i);
      accelerations := accelerations[i := acceleration];
      assert accelerations[..i + 1] == before + [acceleration];
    }
    WrittenAll(c, ls, qdd);
  }

  /** Stores the joint accelerations of one body and adds the motion they cause. */
  method WriteJoint(c: Case, flat: Vec, carried: Vec, subspace: seq<Vec>, jointQdd: Vec, i: nat, offset: nat)
    returns (qdd: Vec, acceleration: Vec)
    requires Counted(c) && |flat| == |c.qd| && i < |c.bodies| && offset == Counts(c.bodies, i).1
    requires Dim(subspace, 6) && |carried| == 6
    requires |jointQdd| == |subspace| == JointSizes(c.bodies[i].joint).value.1
    ensures |qdd| == |flat| && SliceOf(c, qdd, i) == jointQdd
    ensures forall j :: 0 <= j < i ==> SliceOf(c, qdd, j) == SliceOf(c, flat, j)
    ensures acceleration == Add(carried, Comb(jointQdd, subspace, 6))
  {
    hide JointSizes, Counts, SliceOf, Comb;
    SliceBounds(c, i);
    qdd := flat;
    acceleration := carried;
    NoMotion(carried, jointQdd, subspace);
    for local := 0 to |jointQdd|
      invariant |qdd| == |flat|
      invariant qdd[offset..offset + local] == jointQdd[..local]
      invariant forall j :: 0 <= j < i ==> SliceOf(c, qdd, j) == SliceOf(c, flat, j)
      invariant acceleration == Add(carried, Comb(jointQdd[..local], subspace[..local], 6))
    {
      EarlierSlicesKept(c, qdd, i, offset + local, jointQdd[local]);
      ghost var was := qdd;
      qdd := qdd[offset + local := jointQdd[local]];
      assert qdd[offset..offset + local + 1] == was[offset..offset + local] + [jointQdd[local]];
      OneMoreColumn(carried, jointQdd, subspace, local);
      acceleration := Add(acceleration, Scale(jointQdd[local], subspace[local]));
    }
    SliceAt(c, qdd, i);
    assert jointQdd[..|jointQdd|] == jointQdd && subspace[..|jointQdd|] == subspace;
  }

  lemma SliceBounds(c: Case, i: nat)
    requires Counted(c) && i < |c.bodies|
    ensures Counts(c.bodies, i).1 + JointSizes(c.bodies[i].joint).value.1 <= |c.qd|
  {
    NextCounts(c.bodies, i);
  }

  lemma SliceAt(c: Case, y: Vec, i: nat)
    requires Counted(c) && i < |c.bodies| && |y| == |c.qd|
    ensures var a, b := Counts(c.bodies, i).1, JointSizes(c.bodies[i].joint).value.1;
            a + b <= |y| && SliceOf(c, y, i) == y[a..a + b]
  {
    NextCounts(c.bodies, i);
  }

  lemma NoMotion(carried: Vec, q: Vec, subspace: seq<Vec>)
    requires Dim(subspace, 6) && |q| == |subspace| && |carried| == 6
    ensures Add(carried, Comb(q[..0], subspace[..0], 6)) == carried
  {
  }

  lemma OneMoreColumn(carried: Vec, q: Vec, subspace: seq<Vec>, k: nat)
    requires Dim(subspace, 6) && |q| == |subspace| && |carried| == 6 && k < |q|
    ensures Add(Add(carried, Comb(q[..k], subspace[..k], 6)), Scale(q[k], subspace[k]))
            == Add(carried, Comb(q[..k + 1], subspace[..k + 1], 6))
  {
    var c, s := q[..k + 1], subspace[..k + 1];
    assert c[..k] == q[..k] && s[..k] == subspace[..k];
  }

  // ---------------------------------------------------------------- the whole computation

  method BuildLink(f: Analysis, c: Case, i: nat, qOffset: nat, qdOffset: nat) returns (link: Link)
    requires Usable(f, c) && Counted(c) && i < |c.bodies| && (qOffset, qdOffset) == Counts(c.bodies, i)
    ensures link == LinkOf(f, c, i)
  {
    hide LinkFrom, JointSizes, UsableBody, UsableCoordinates, Counts;
    NextCounts(c.bodies, i);
    var b := c.bodies[i];
    var (qLen, qdLen) := JointSizes(b.joint).value;
    link := LinkFrom(f, b, c.q[qOffset..qOffset + qLen], c.qd[qdOffset..qdOffset + qdLen],
                     c.forces[qdOffset..qdOffset + qdLen], c.externalForces[i]);
  }

  method BuildLinks(f: Analysis, c: Case, qOffsets: seq<nat>, qdOffsets: seq<nat>) returns (ls: seq<Link>)
    requires Usable(f, c) && Counted(c) && |qOffsets| == |qdOffsets| == |c.bodies|
    requires forall i :: 0 <= i < |c.bodies| ==> (qOffsets[i], qdOffsets[i]) == Counts(c.bodies, i)
    ensures ls == Links(f, c)
  {
    hide LinkOf, Usable, Counted, Counts;
    ls := [];
    for i := 0 to |c.bodies|
      invariant |ls| == i && forall j :: 0 <= j < i ==> ls[j] == LinkOf(f, c, j)
    {
      var link := BuildLink(f, c, i, qOffsets[i], qdOffsets[i]);
      ls := ls + [link];
    }
  }

  /**
   * The script's forward dynamics. It reports exactly the faults the script raises, and what it
   * returns is the one vector of joint accelerations that satisfies the equations of motion.
   */
  method ForwardDynamics(f: Analysis, c: Case) returns (r: Outcome)
    requires Usable(f, c)
    ensures r.UnsupportedJoint? <==> !Supported(c.bodies)
    ensures r.CountMismatch? <==> Supported(c.bodies) && !Counted(c)
    ensures r.SingularMatrix? <==> Counted(c) && !Solvable(Links(f, c), 0)
    ensures r.Accelerations? ==> Counted(c) && |r.qdd| == |c.qd|
    ensures r.Accelerations? ==> Slices(c, r.qdd) == JointAccelerations(Links(f, c), c.rootAcceleration)
    ensures r.Accelerations? && SymmetricBodies(Links(f, c)) ==>
              forall y: Vec :: |y| == |c.qd| ==>
                (EquationsOfMotion(Links(f, c), c.rootAcceleration, Slices(c, y)) <==> y == r.qdd)
  {
    hide JointSizes, Solvable, EquationsOfMotion, SymmetricBodies, JointAccelerations, LinkOf, Counts, UsableBody;
    var offsets := Offsets(c.bodies);
    if offsets.None? {
      return UnsupportedJoint;
    }
    var (qOffsets, qdOffsets, qCount, qdCount) := offsets.value;
    if |c.q| != qCount || |c.qd| != qdCount || |c.forces| != qdCount {
      return CountMismatch;
    }
    var ls := BuildLinks(f, c, qOffsets, qdOffsets);
    var coriolis, biases := VelocityPass(ls);
    var passes := InwardPass(ls, coriolis, biases);
    if passes.None? {
      return SingularMatrix;
    }
    var qdd := AccelerationPass(c, ls, qdOffsets, coriolis, passes.value);
    if SymmetricBodies(ls) {
      forall y: Vec | |y| == |c.qd|
        ensures EquationsOfMotion(ls, c.rootAcceleration, Slices(c, y)) <==> y == qdd
      {
        SolvesEquationsOfMotion(ls, c.rootAcceleration, Slices(c, y));
        SlicesDetermine(c, y, qdd);
      }
    }
    return Accelerations(qdd);
  }

  // ---------------------------------------------------------------- physical cases never fail

  lemma UnitColumnsIndependent(n: nat)
    requires n <= 6
    ensures Independent(UnitColumns(n))
  {
    hide Dot, Comb;
    var s := UnitColumns(n);
    forall z: Vec | |z| == n && z != Zeros(n)
      ensures Comb(z, s, 6) != Zeros(6)
    {
      var k :| 0 <= k < n && z[k] != 0.0;
      CombAt(z, s, 6, k);
      assert Column(s, 6, k) == Unit(n, k);
      DotUnit(n, k, z);
    }
  }

  lemma OneColumnIndependent(v: Vec)
    requires |v| == 6 && v != Zeros(6)
    ensures Independent([v])
  {
    hide Dot, Comb;
    var k :| 0 <= k < 6 && v[k] != 0.0;
    forall z: Vec | |z| == 1 && z != Zeros(1)
      ensures Comb(z, [v], 6) != Zeros(6)
    {
      CombAt(z, [v], 6, k);
      var w := Column([v], 6, k);
      DotFront(z, w);
      assert z[1..] == [] == w[1..];
      DotZeros([]);
      assert Zeros(0) == [];
      assert z[0] != 0.0 && w[0] == v[k];
      NonzeroProduct(z[0], v[k]);
    }
  }

  lemma NonzeroProduct(a: real, b: real)
    requires a != 0.0 && b != 0.0
    ensures a * b != 0.0
  {
  }

  lemma NormalisedNonzero(f: Analysis, v: Vec)
    requires f.sqrt(0.0) == 0.0 && f.sqrt(Dot(v, v)) != 0.0
    ensures Normalised(f, v) != Zeros(|v|)
  {
    hide Dot;
    var n := f.sqrt(Dot(v, v));
    if v == Zeros(|v|) {
      DotZeros(v);
    } else {
      var k :| 0 <= k < |v| && v[k] != 0.0;
      NonzeroProduct(1.0 / n, v[k]);
      assert Normalised(f, v)[k] == (1.0 / n) * v[k];
    }
  }

  /** Every joint kind moves in independent directions. */
  lemma SubspaceIndependent(f: Analysis, b: Body)
    requires UsableBody(f, b) && JointSizes(b.joint).Some? && f.sqrt(0.0) == 0.0
    ensures Independent(JointSubspace(f, b))
  {
    hide Independent, Normalised, Dot;
    if b.joint == "free" {
      UnitColumnsIndependent(6);
    } else if b.joint == "spherical" {
      UnitColumnsIndependent(3);
    } else if b.joint == "welded" {
      assert JointSubspace(f, b) == [];
      EmptyIndependent();
    } else {
      NormalisedNonzero(f, b.axis);
      var u := Normalised(f, b.axis);
      var k :| 0 <= k < 3 && u[k] != 0.0;
      assert (u + Zeros(3))[k] != 0.0 && (Zeros(3) + u)[k + 3] != 0.0;
      OneColumnIndependent(u + Zeros(3));
      OneColumnIndependent(Zeros(3) + u);
    }
  }

  lemma EmptyIndependent()
    ensures Independent([])
  {
  }

  /** A rigid body with positive mass and positive principal inertias. */
  ghost predicate RigidBody(b: Body) {
    exists mass: real, com: Vec, diag: Vec ::
      && |com| == 3 && |diag| == 3 && mass > 0.0 && (forall k :: 0 <= k < 3 ==> diag[k] > 0.0)
      && b.inertia == SpatialInertia(mass, com, diag)
  }

  /**
   * On a tree of rigid bodies the backward pass never meets a singular joint matrix: whatever the
   * joints, positions, rates and forces, there is an answer and it solves the equations of motion.
   */
  lemma RigidBodiesAreSolvable(f: Analysis, c: Case)
    requires Usable(f, c) && Counted(c) && f.sqrt(0.0) == 0.0
    requires forall i :: 0 <= i < |c.bodies| ==> RigidBody(c.bodies[i])
    ensures SymmetricBodies(Links(f, c)) && Solvable(Links(f, c), 0)
  {
    hide Symmetric, PositiveDefinite, Independent, Solvable, SpatialInertia, JointSubspace, JointSizes, UsableBody;
    var ls := Links(f, c);
    forall i | 0 <= i < |ls|
      ensures Symmetric(ls[i].inertia, 6) && PositiveDefinite(ls[i].inertia, 6) && Independent(ls[i].subspace)
    {
      var b := c.bodies[i];
      assert RigidBody(b) && ls[i] == LinkOf(f, c, i);
      var mass, com, diag :| |com| == 3 && |diag| == 3 && mass > 0.0
        && (forall k :: 0 <= k < 3 ==> diag[k] > 0.0) && b.inertia == SpatialInertia(mass, com, diag);
      SpatialInertiaDefinite(mass, com, diag);
      SubspaceIndependent(f, b);
    }
    PhysicalIsSolvable(ls);
  }
}
