/** The equations of motion in the flat vectors of a case: which rates, forces and loads they are about. */
module CaseDynamics {
  import opened LinearAlgebra
  import opened SpatialAlgebra
  import opened ArticulatedTree
  import opened ForwardDynamics
  import opened VirtualPower

  /** The joints' vectors one after another. */
  function Joined(ys: seq<Vec>): Vec {
    if |ys| == 0 then [] else Joined(ys[..|ys| - 1]) + ys[|ys| - 1]
  }

  lemma {:induction false} JoinedSize(c: Case, ys: seq<Vec>, n: nat)
    requires Counted(c) && |ys| == |c.bodies| && n <= |ys|
    requires forall i :: 0 <= i < |ys| ==> |ys[i]| == JointSizes(c.bodies[i].joint).value.1
    ensures |Joined(ys[..n])| == Counts(c.bodies, n).1
  {
    hide JointSizes;
    if n > 0 {
      JoinedSize(c, ys, n - 1);
      assert ys[..n][..n - 1] == ys[..n - 1];
    }
  }

  lemma {:induction false} JoinedPrefix(ys: seq<Vec>, n: nat)
    requires n <= |ys|
    ensures Joined(ys[..n]) <= Joined(ys)
    decreases |ys|
  {
    if n == |ys| {
      assert ys[..n] == ys;
    } else {
      var k := |ys| - 1;
      JoinedPrefix(ys[..k], n);
      assert ys[..k][..n] == ys[..n];
    }
  }

  /** Every family of joint vectors is the slices of a flat vector. */
  lemma JoinedSlices(c: Case, ys: seq<Vec>)
    requires Counted(c) && |ys| == |c.bodies|
    requires forall i :: 0 <= i < |ys| ==> |ys[i]| == JointSizes(c.bodies[i].joint).value.1
    ensures |Joined(ys)| == |c.qd| && Slices(c, Joined(ys)) == ys
  {
    hide JointSizes, Joined, Counts;
    JoinedSize(c, ys, |ys|);
    assert ys[..|ys|] == ys;
    forall i | 0 <= i < |ys|
      ensures SliceOf(c, Joined(ys), i) == ys[i]
    {
      JoinedSlice(c, ys, i);
    }
  }

  lemma JoinedSlice(c: Case, ys: seq<Vec>, i: nat)
    requires Counted(c) && |ys| == |c.bodies| && i < |ys| && |Joined(ys)| == |c.qd|
    requires forall i :: 0 <= i < |ys| ==> |ys[i]| == JointSizes(c.bodies[i].joint).value.1
    ensures SliceOf(c, Joined(ys), i) == ys[i]
  {
    hide JointSizes, Counts;
    JoinedSize(c, ys, i);
    JoinedSize(c, ys, i + 1);
    JoinedPrefix(ys, i + 1);
    assert ys[..i + 1][..i] == ys[..i];
    assert Joined(ys[..i + 1]) == Joined(ys[..i]) + ys[i];
  }

  lemma DotSplit(x: Vec, y: Vec, a: nat, b: nat)
    requires a <= b <= |x| == |y|
    ensures Dot(x[a..], y[a..]) == Dot(x[a..b], y[a..b]) + Dot(x[b..], y[b..])
  {
    hide Dot;
    assert x[a..] == x[a..b] + x[b..] && y[a..] == y[a..b] + y[b..];
    DotConcat(x[a..b], x[b..], y[a..b], y[b..]);
  }

  lemma ForceSlice(f: Analysis, c: Case, i: nat)
    requires Usable(f, c) && Counted(c) && i < |c.bodies|
    ensures Links(f, c)[i].force == SliceOf(c, c.forces, i) && Links(f, c)[i].rate == SliceOf(c, c.qd, i)
    ensures Links(f, c)[i].external == c.externalForces[i]
  {
  }

  lemma SlicesFit(f: Analysis, c: Case, y: Vec)
    requires Usable(f, c) && Counted(c) && |y| == |c.qd|
    ensures Fits(Links(f, c), Slices(c, y))
  {
    hide LinkFrom, JointSizes;
  }

  /** The generalized forces do the power of the flat force vector on the flat rates. */
  lemma {:induction false} FlatPower(f: Analysis, c: Case, y: Vec, k: nat)
    requires Usable(f, c) && Counted(c) && |y| == |c.qd| && k <= |c.bodies|
    requires Fits(Links(f, c), Slices(c, y))
    ensures Counts(c.bodies, k).1 <= |y|
    ensures ForcePower(Links(f, c), Slices(c, y), k)
            == Dot(c.forces[Counts(c.bodies, k).1..], y[Counts(c.bodies, k).1..])
    decreases |c.bodies| - k
  {
    hide Dot, JointSizes, Usable, LinkOf, Counts;
    CountsGrow(c.bodies, k, |c.bodies|);
    var a := Counts(c.bodies, k).1;
    if k < |c.bodies| {
      FlatPower(f, c, y, k + 1);
      NextCounts(c.bodies, k);
      DotSplit(c.forces, y, a, Counts(c.bodies, k + 1).1);
      ForceSlice(f, c, k);
      DotSymmetric(SliceOf(c, y, k), SliceOf(c, c.forces, k));
    } else {
      NothingLeft(c.forces, y);
    }
  }

  lemma NothingLeft(x: Vec, y: Vec)
    requires |x| == |y|
    ensures Dot(x[|x|..], y[|y|..]) == 0.0
  {
    assert x[|x|..] == [] == y[|y|..];
  }

  /** Power of what the bodies need when the joints accelerate by `qdd` and virtually move at the rates `y`. */
  function CasePower(f: Analysis, c: Case, qdd: Vec, y: Vec): real
    requires Usable(f, c) && Counted(c) && |qdd| == |y| == |c.qd|
  {
    SlicesFit(f, c, qdd);
    SlicesFit(f, c, y);
    BodyPower(Links(f, c), c.rootAcceleration, Slices(c, qdd), Slices(c, y), |c.bodies|)
  }

  /**
   * The equations of motion of a case: for all flat virtual rates, the power of what the bodies need is the
   * product with the case's generalized forces.
   */
  lemma CaseMotion(f: Analysis, c: Case, qdd: Vec)
    requires Usable(f, c) && Counted(c) && |qdd| == |c.qd|
    ensures EquationsOfMotion(Links(f, c), c.rootAcceleration, Slices(c, qdd)) <==>
            forall y: Vec :: |y| == |c.qd| ==> CasePower(f, c, qdd, y) == Dot(c.forces, y)
  {
    hide Dot, JointSizes, LinkOf, EquationsOfMotion, BodyPower, ForcePower, Counts, UsableBody, UsableCoordinates;
    var ls, q := Links(f, c), Slices(c, qdd);
    SlicesFit(f, c, qdd);
    forall y: Vec | |y| == |c.qd|
      ensures Fits(ls, Slices(c, y)) && ForcePower(ls, Slices(c, y), 0) == Dot(c.forces, y)
    {
      WholePower(f, c, y);
    }
    MotionByVirtualPower(ls, c.rootAcceleration, q);
    if forall y: Vec :: |y| == |c.qd| ==> CasePower(f, c, qdd, y) == Dot(c.forces, y) {
      forall ys: seq<Vec> | Fits(ls, ys)
        ensures BodyPower(ls, c.rootAcceleration, q, ys, |ls|) == ForcePower(ls, ys, 0)
      {
        SameSizes(f, c, ys);
        JoinedSlices(c, ys);
        assert CasePower(f, c, qdd, Joined(ys)) == Dot(c.forces, Joined(ys));
      }
    }
  }

  /** The bodies move at the case's rates and carry its loads. */
  lemma CaseState(f: Analysis, c: Case, i: nat)
    requires Usable(f, c) && Counted(c) && i < |c.bodies|
    ensures Fits(Links(f, c), Slices(c, c.qd))
    ensures Velocity(Links(f, c), i) == VirtualVelocity(Links(f, c), Slices(c, c.qd), i)
    ensures Links(f, c)[i].external == c.externalForces[i]
  {
    hide Usable, JointSizes, LinkOf, Counts, Velocity, VirtualVelocity;
    SlicesFit(f, c, c.qd);
    RatesAreSlices(f, c);
    VelocityIsVirtual(Links(f, c), i);
    ForceSlice(f, c, i);
  }

  lemma WholePower(f: Analysis, c: Case, y: Vec)
    requires Usable(f, c) && Counted(c) && |y| == |c.qd|
    ensures Fits(Links(f, c), Slices(c, y)) && ForcePower(Links(f, c), Slices(c, y), 0) == Dot(c.forces, y)
  {
    hide Dot, Usable, JointSizes, LinkOf;
    SlicesFit(f, c, y);
    FlatPower(f, c, y, 0);
    assert c.forces[0..] == c.forces && y[0..] == y;
  }

  lemma SameSizes(f: Analysis, c: Case, ys: seq<Vec>)
    requires Usable(f, c) && Counted(c) && Fits(Links(f, c), ys)
    ensures |ys| == |c.bodies|
    ensures forall i :: 0 <= i < |ys| ==> |ys[i]| == JointSizes(c.bodies[i].joint).value.1
  {
    hide LinkFrom, JointSizes;
  }

  lemma RatesAreSlices(f: Analysis, c: Case)
    requires Usable(f, c) && Counted(c)
    ensures Rates(Links(f, c)) == Slices(c, c.qd)
  {
    hide Usable, JointSizes, LinkOf;
    var l, r := Rates(Links(f, c)), Slices(c, c.qd);
    forall i | 0 <= i < |c.bodies|
      ensures l[i] == r[i]
    {
      ForceSlice(f, c, i);
    }
  }
}
