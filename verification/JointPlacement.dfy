/** Where each joint puts its child and how it turns it, and the motions that its columns stand for. */
module JointPlacement {
  import opened LinearAlgebra
  import opened SpatialAlgebra
  import opened Rotations
  import opened NewtonEuler
  import opened ForwardDynamics
  import opened JointKinematics

  // ---------------------------------------------------------------- rotations as maps

  /** Rodrigues' formula for turning `p` about the axis `u`. */
  function Rodrigues(u: Vec, c: real, s: real, p: Vec): (r: Vec)
    requires |u| == |p| == 3
    ensures |r| == 3
  {
    Add(Add(Scale(c, p), Scale(s, Cross(u, p))), Scale((1.0 - c) * Dot(u, p), u))
  }

  /** The matrix of an axis and an angle turns about that axis. */
  lemma AxisRotationActs(u: Vec, c: real, s: real, p: Vec)
    requires |u| == |p| == 3
    ensures MatVec(AxisRotation(u, c, s), p) == Rodrigues(u, c, s, p)
  {
    hide Dot, Cross, AxisRotation, Scale, Add, MatVec;
    AxisComponents(u, c, s, p);
    ThreeParts(MatVec(AxisRotation(u, c, s), p), p, Cross(u, p), u, c, s, (1.0 - c) * Dot(u, p));
  }

  function Three(c: real, a: real, s: real, t: real, kd: real, x: real): real {
    c * a + s * t + kd * x
  }

  lemma ThreeParts(l: Vec, p: Vec, t: Vec, u: Vec, c: real, s: real, kd: real)
    requires |l| == |p| == |t| == |u| == 3
    requires forall i :: 0 <= i < 3 ==> l[i] == Three(c, p[i], s, t[i], kd, u[i])
    ensures l == Add(Add(Scale(c, p), Scale(s, t)), Scale(kd, u))
  {
  }

  lemma AxisComponents(u: Vec, c: real, s: real, p: Vec)
    requires |u| == |p| == 3
    ensures var l, kd := MatVec(AxisRotation(u, c, s), p), (1.0 - c) * Dot(u, p);
            forall i :: 0 <= i < 3 ==> l[i] == Three(c, p[i], s, Cross(u, p)[i], kd, u[i])
  {
    hide Dot, Cross, AxisDiagonal, AxisMinus, AxisPlus, Three;
    var r, t := AxisRotation(u, c, s), Cross(u, p);
    var x, y, z, k, kd := u[0], u[1], u[2], 1.0 - c, (1.0 - c) * Dot(u, p);
    Dot3(r[0], p);
    Dot3(r[1], p);
    Dot3(r[2], p);
    Dot3(u, p);
    CrossEntries(u, p);
    AxisEntry(x, y, z, k, c, s, p[0], p[1], p[2], kd, t[0]);
    AxisEntry(y, z, x, k, c, s, p[1], p[2], p[0], kd, t[1]);
    AxisEntry(z, x, y, k, c, s, p[2], p[0], p[1], kd, t[2]);
  }

  lemma AxisEntry(x: real, y: real, z: real, k: real, c: real, s: real, a: real, b: real, d: real, kd: real, t: real)
    requires kd == k * (x * a + y * b + z * d) && t == y * d - z * b
    ensures AxisDiagonal(k, c, x) * a + AxisMinus(k, s, x, y, z) * b + AxisPlus(k, s, x, z, y) * d
            == Three(c, a, s, t, kd, x)
  {
    assert kd * x == (x * x * k) * a + (x * y * k) * b + (x * z * k) * d;
    assert s * t == s * y * d - s * z * b;
  }

  /** A quaternion turns a vector by its double cross product. */
  lemma QuaternionActs(w: real, v: Vec, p: Vec)
    requires |v| == |p| == 3
    ensures MatVec(QuaternionRotation([w] + v), p)
            == Add(p, Add(Scale(2.0 * w, Cross(v, p)), Scale(2.0, Cross(v, Cross(v, p)))))
  {
    hide Dot, Cross, QuaternionRotation, Scale, Add, MatVec;
    var t := Cross(v, p);
    QuaternionComponents(w, v, p);
    TwoParts(MatVec(QuaternionRotation([w] + v), p), p, t, Cross(v, t), w);
  }

  lemma TwoParts(l: Vec, p: Vec, t: Vec, q: Vec, w: real)
    requires |l| == |p| == |t| == |q| == 3
    requires forall i :: 0 <= i < 3 ==> l[i] == Two(p[i], w, t[i], q[i])
    ensures l == Add(p, Add(Scale(2.0 * w, t), Scale(2.0, q)))
  {
  }

  lemma QuaternionComponents(w: real, v: Vec, p: Vec)
    requires |v| == |p| == 3
    ensures var l, t := MatVec(QuaternionRotation([w] + v), p), Cross(v, p);
            forall i :: 0 <= i < 3 ==> l[i] == Two(p[i], w, t[i], Cross(v, t)[i])
  {
    hide Dot, Cross, QuatDiagonal, QuatMinus, QuatPlus, Two;
    var r, t := QuaternionRotation([w] + v), Cross(v, p);
    var x, y, z := v[0], v[1], v[2];
    Dot3(r[0], p);
    Dot3(r[1], p);
    Dot3(r[2], p);
    CrossEntries(v, p);
    var q := Cross(v, t);
    CrossEntries(v, t);
    QuatEntry(w, x, y, z, p[0], p[1], p[2], t[0], t[1], t[2], q[0]);
    QuatEntry(w, y, z, x, p[1], p[2], p[0], t[1], t[2], t[0], q[1]);
    QuatEntry(w, z, x, y, p[2], p[0], p[1], t[2], t[0], t[1], q[2]);
  }

  lemma QuatEntry(w: real, x: real, y: real, z: real, a: real, b: real, d: real, ta: real, tb: real, td: real, q: real)
    requires ta == y * d - z * b && tb == z * a - x * d && td == x * b - y * a && q == y * td - z * tb
    ensures QuatDiagonal(y, z) * a + QuatMinus(w, x, y, z) * b + QuatPlus(w, x, z, y) * d == Two(a, w, ta, q)
  {
    assert y * td == y * x * b - y * y * a && z * tb == z * z * a - z * x * d;
    assert w * ta == w * y * d - w * z * b;
  }

  function Two(a: real, w: real, t: real, q: real): real {
    a + (2.0 * w * t + 2.0 * q)
  }

  // ---------------------------------------------------------------- the child frame

  /** The body is placed at its parent's origin, so its frame is the joint's. */
  predicate Unplaced(b: Body) {
    b.fixedRotation == Identity(3) && b.fixedTranslation == Zeros(3)
  }

  /** The map of motions from parent to child that a link gets. */
  function ChildMap(f: Analysis, b: Body, q: Vec): (r: Mat)
    requires UsableBody(f, b) && UsableCoordinates(f, b.joint, q)
    ensures IsMat(r, 6, 6)
  {
    var n := JointSizes(b.joint).value.1;
    LinkFrom(f, b, q, Zeros(n), Zeros(n), Zeros(6)).transform
  }

  lemma MapOfLink(f: Analysis, b: Body, q: Vec, qd: Vec, force: Vec, external: Vec)
    requires UsableBody(f, b) && UsableCoordinates(f, b.joint, q)
    requires |qd| == |force| == JointSizes(b.joint).value.1 && |external| == 6
    ensures LinkFrom(f, b, q, qd, force, external).transform == ChildMap(f, b, q)
  {
  }

  lemma NoPlacement(m: Mat, x: Vec)
    requires IsMat(m, 6, 6) && |x| == 6
    ensures MatVec(MatMul(m, MotionTransform(Identity(3), Zeros(3)), 6), x) == MatVec(m, x)
  {
    hide Dot, MatVec, MatMul, Cross, MotionTransform, Identity;
    var w, v := x[..3], x[3..];
    Split(x);
    MotionTransformActs(Identity(3), Zeros(3), w, v);
    CrossItself(w, 0.0);
    CrossLinear(w, Zeros(3), 1.0);
    ZeroCross(w);
    assert Sub(v, Zeros(3)) == v;
    IdentityActs(w);
    IdentityActs(v);
    MatMulVec(m, MotionTransform(Identity(3), Zeros(3)), x);
  }

  lemma ZeroCross(w: Vec)
    requires |w| == 3
    ensures Cross(Zeros(3), w) == Zeros(3)
  {
  }

  lemma ChildMapActs(f: Analysis, b: Body, q: Vec, w: Vec, v: Vec)
    requires UsableBody(f, b) && UsableCoordinates(f, b.joint, q) && Unplaced(b) && |w| == |v| == 3
    ensures var (rot, t) := JointTransform(f, b, q);
            MatVec(ChildMap(f, b, q), w + v) == MatVec(rot, w) + MatVec(rot, Sub(v, Cross(t, w)))
  {
    hide JointTransform, MatVec, MatMul, Cross, MotionTransform, ProperRotation, UsableBody, UsableCoordinates,
         LinkFrom, JointSizes;
    UsableSizes(f, b, q);
    var (rot, t) := JointTransform(f, b, q);
    var n := JointSizes(b.joint).value.1;
    IdentityIsProper();
    TransformIsPlacementThenJoint(f, b, q, Zeros(n), Zeros(n), Zeros(6));
    NoPlacement(MotionTransform(rot, t), w + v);
    MotionTransformActs(rot, t, w, v);
  }

  lemma UsableSizes(f: Analysis, b: Body, q: Vec)
    requires UsableBody(f, b) && UsableCoordinates(f, b.joint, q)
    ensures JointSizes(b.joint).Some?
  {
  }

  lemma AllIdentity(w: Vec)
    requires |w| == 3
    ensures MatVec(Identity(3), w) == w
  {
    IdentityActs(w);
  }

  /** A prismatic joint moves the child along its unit axis and does not turn it. */
  lemma PrismaticMap(f: Analysis, b: Body, x: real, w: Vec, v: Vec)
    requires UsableBody(f, b) && b.joint == "prismatic" && Unplaced(b) && |w| == |v| == 3
    ensures UsableCoordinates(f, b.joint, [x])
    ensures MatVec(ChildMap(f, b, [x]), w + v) == w + Sub(v, Scale(x, Cross(Normalised(f, b.axis), w)))
  {
    hide MatVec, Cross, Identity, Normalised, Scale, ChildMap;
    var u := Normalised(f, b.axis);
    ChildMapActs(f, b, [x], w, v);
    AllIdentity(w);
    AllIdentity(Sub(v, Cross(Scale(x, u), w)));
    CrossLinear(w, u, x);
    CrossLinear(w, Scale(x, u), 1.0);
    CrossLinear(w, u, 1.0);
    ScaleSwap(-1.0, x, Cross(w, u));
  }

  lemma ScaleSwap(a: real, b: real, x: Vec)
    ensures Scale(a, Scale(b, x)) == Scale(b, Scale(a, x))
  {
    forall i | 0 <= i < |x|
      ensures Scale(a, Scale(b, x))[i] == Scale(b, Scale(a, x))[i]
    {
      Associate(a, b, x[i]);
      Associate(b, a, x[i]);
    }
  }

  /** Revolute and spherical joints turn the child about the common origin. */
  lemma TurningMap(f: Analysis, b: Body, q: Vec, w: Vec, v: Vec)
    requires UsableBody(f, b) && UsableCoordinates(f, b.joint, q) && Unplaced(b) && |w| == |v| == 3
    requires b.joint == "revolute" || b.joint == "spherical"
    ensures b.joint == "revolute" ==>
              var r := AxisRotation(Normalised(f, b.axis), f.cos(q[0]), f.sin(q[0]));
              MatVec(ChildMap(f, b, q), w + v) == MatVec(r, w) + MatVec(r, v)
    ensures b.joint == "spherical" ==>
              var r := Transpose(QuaternionRotation(Normalised(f, q[..4])), 3);
              MatVec(ChildMap(f, b, q), w + v) == MatVec(r, w) + MatVec(r, v)
  {
    hide MatVec, Cross, Normalised, ChildMap, AxisRotation, QuaternionRotation, Transpose;
    ChildMapActs(f, b, q, w, v);
    ZeroCross(w);
    assert Sub(v, Zeros(3)) == v;
  }

  /** A free joint puts the child's origin at its last three coordinates and turns it as a spherical joint would. */
  lemma FreeMap(f: Analysis, b: Body, q: Vec, w: Vec, v: Vec)
    requires UsableBody(f, b) && UsableCoordinates(f, b.joint, q) && b.joint == "free" && Unplaced(b)
    requires |w| == |v| == 3
    ensures var s := b.(joint := "spherical");
            && UsableBody(f, s) && UsableCoordinates(f, "spherical", q[..4])
            && MatVec(ChildMap(f, b, q), w + v) == MatVec(ChildMap(f, s, q[..4]), w + Sub(v, Cross(q[4..7], w)))
  {
    hide MatVec, Cross, Normalised, ChildMap, QuaternionRotation, Transpose;
    var s := b.(joint := "spherical");
    assert q[..4][..4] == q[..4];
    ChildMapActs(f, b, q, w, v);
    TurningMap(f, s, q[..4], w, Sub(v, Cross(q[4..7], w)));
  }

  /** A weld leaves the child where its placement puts it. */
  lemma WeldedMap(f: Analysis, b: Body, w: Vec, v: Vec)
    requires UsableBody(f, b) && b.joint == "welded" && Unplaced(b) && |w| == |v| == 3
    ensures UsableCoordinates(f, b.joint, []) && MatVec(ChildMap(f, b, []), w + v) == w + v
  {
    hide MatVec, Cross, Identity, ChildMap;
    ChildMapActs(f, b, [], w, v);
    ZeroCross(w);
    assert Sub(v, Zeros(3)) == v;
    AllIdentity(w);
    AllIdentity(v);
  }

  // ---------------------------------------------------------------- the child's origin

  /** Linear half of what the child sees of a turning `w` about the point `t`. */
  function SeenAtChild(m: Mat, t: Vec, w: Vec): (r: Vec)
    requires IsMat(m, 6, 6) && |t| == |w| == 3
    ensures |r| == 3
  {
    MatVec(m, w + Cross(t, w))[3..]
  }

  /** The point whose turning about itself the map sees without linear motion: the child's origin. */
  ghost predicate OriginAt(m: Mat, t: Vec)
    requires IsMat(m, 6, 6) && |t| == 3
  {
    forall w: Vec :: |w| == 3 ==> SeenAtChild(m, t, w) == Zeros(3)
  }

  lemma CrossWithUnits(d: Vec)
    requires |d| == 3 && Cross(d, [1.0, 0.0, 0.0]) == Zeros(3) && Cross(d, [0.0, 1.0, 0.0]) == Zeros(3)
    ensures d == Zeros(3)
  {
    var x, y := Cross(d, [1.0, 0.0, 0.0]), Cross(d, [0.0, 1.0, 0.0]);
    assert x[1] == d[2] && x[2] == -d[1] && y[2] == d[0];
  }

  lemma PrismaticTurning(f: Analysis, b: Body, x: real, t: Vec, w: Vec)
    requires UsableBody(f, b) && b.joint == "prismatic" && Unplaced(b) && |t| == |w| == 3
    ensures UsableCoordinates(f, b.joint, [x])
    ensures SeenAtChild(ChildMap(f, b, [x]), t, w) == Cross(Sub(t, Scale(x, Normalised(f, b.axis))), w)
  {
    hide MatVec, Cross, Normalised, ChildMap, Scale;
    PrismaticMap(f, b, x, w, Cross(t, w));
    OriginStep(t, Normalised(f, b.axis), x, w);
  }

  /** The child of a prismatic joint is displaced by the coordinate along the unit axis, and nowhere else. */
  lemma PrismaticOrigin(f: Analysis, b: Body, x: real, t: Vec)
    requires UsableBody(f, b) && b.joint == "prismatic" && Unplaced(b) && |t| == 3
    ensures UsableCoordinates(f, b.joint, [x])
    ensures OriginAt(ChildMap(f, b, [x]), t) <==> t == Scale(x, Normalised(f, b.axis))
  {
    hide MatVec, Cross, Normalised, ChildMap, Scale, SeenAtChild, OriginAt;
    forall w: Vec | |w| == 3
      ensures SeenAtChild(ChildMap(f, b, [x]), t, w) == Cross(Sub(t, Scale(x, Normalised(f, b.axis))), w)
    {
      PrismaticTurning(f, b, x, t, w);
    }
    OriginOnlyAt(ChildMap(f, b, [x]), t, Scale(x, Normalised(f, b.axis)));
  }

  lemma OriginOnlyAt(m: Mat, t: Vec, o: Vec)
    requires IsMat(m, 6, 6) && |t| == |o| == 3
    requires forall w: Vec :: |w| == 3 ==> SeenAtChild(m, t, w) == Cross(Sub(t, o), w)
    ensures OriginAt(m, t) <==> t == o
  {
    hide MatVec, Cross, SeenAtChild;
    if OriginAt(m, t) {
      assert SeenAtChild(m, t, [1.0, 0.0, 0.0]) == Zeros(3) && SeenAtChild(m, t, [0.0, 1.0, 0.0]) == Zeros(3);
      CrossWithUnits(Sub(t, o));
      EqualByDifference(t, o);
    }
    if t == o {
      assert Sub(t, o) == Zeros(3);
      forall w: Vec | |w| == 3
        ensures SeenAtChild(m, t, w) == Zeros(3)
      {
        ZeroCross(w);
      }
    }
  }

  lemma EqualByDifference(x: Vec, y: Vec)
    requires |x| == |y| == 3 && Sub(x, y) == Zeros(3)
    ensures x == y
  {
    assert Sub(x, y)[0] == 0.0 && Sub(x, y)[1] == 0.0 && Sub(x, y)[2] == 0.0;
  }

  lemma OriginStep(t: Vec, u: Vec, x: real, w: Vec)
    requires |t| == |u| == |w| == 3
    ensures Sub(Cross(t, w), Scale(x, Cross(u, w))) == Cross(Sub(t, Scale(x, u)), w)
  {
    hide Cross;
    var o := Scale(x, u);
    CrossLinear(w, u, x);
    CrossLinear(w, o, 1.0);
    CrossLinear(w, u, 1.0);
    ScaleSwap(-1.0, x, Cross(w, u));
    CrossSum(Sub(t, o), o, w);
    assert Add(Sub(t, o), o) == t;
    SumLess(Cross(Sub(t, o), w), Cross(o, w));
  }

  lemma SumLess(x: Vec, y: Vec)
    requires |x| == |y| == 3
    ensures Sub(Add(x, y), y) == x
  {
  }

  /** At coordinate `x` the child of the prismatic joint has its origin at `t`. */
  ghost predicate SlidTo(f: Analysis, b: Body, x: real, t: Vec) {
    && UsableBody(f, b) && b.joint == "prismatic" && Unplaced(b) && |t| == 3 && UsableCoordinates(f, b.joint, [x])
    && OriginAt(ChildMap(f, b, [x]), t)
  }

  /** The column of a joint with one motion. */
  function ColumnOf(f: Analysis, b: Body): (r: Vec)
    requires UsableBody(f, b) && (b.joint == "revolute" || b.joint == "prismatic")
    ensures |r| == 6
  {
    JointSubspace(f, b)[0]
  }

  /** The displacement is `k` times the linear half of the joint's column, whose angular half is zero. */
  ghost predicate AlongColumn(f: Analysis, b: Body, d: Vec, k: real) {
    && UsableBody(f, b) && b.joint == "prismatic"
    && d == Scale(k, ColumnOf(f, b)[3..]) && ColumnOf(f, b)[..3] == Zeros(3)
  }

  /** Between two positions the child of a prismatic joint has moved along the linear half of the joint's column. */
  lemma PrismaticSlides(f: Analysis, b: Body, x1: real, x2: real, t1: Vec, t2: Vec)
    requires |t1| == |t2| == 3 && SlidTo(f, b, x1, t1) && SlidTo(f, b, x2, t2)
    ensures AlongColumn(f, b, Sub(t2, t1), x2 - x1)
  {
    hide ChildMap, Normalised, OriginAt, UsableCoordinates;
    PrismaticOrigin(f, b, x1, t1);
    PrismaticOrigin(f, b, x2, t2);
    var u := Normalised(f, b.axis);
    assert ColumnOf(f, b) == Zeros(3) + u;
    ScaleDifference(x1, x2, u);
  }

  lemma ScaleDifference(a: real, b: real, u: Vec)
    ensures Sub(Scale(b, u), Scale(a, u)) == Scale(b - a, u)
  {
    forall i | 0 <= i < |u|
      ensures Sub(Scale(b, u), Scale(a, u))[i] == Scale(b - a, u)[i]
    {
      Distribute(u[i], b, -a);
    }
  }

  lemma FreeTurning(f: Analysis, b: Body, q: Vec, w: Vec)
    requires UsableBody(f, b) && UsableCoordinates(f, b.joint, q) && b.joint == "free" && Unplaced(b) && |w| == 3
    ensures |q| == 7 && SeenAtChild(ChildMap(f, b, q), q[4..7], w) == Zeros(3)
  {
    hide MatVec, Cross, ChildMap, QuaternionRotation, Normalised, Transpose;
    var t, s := q[4..7], b.(joint := "spherical");
    FreeMap(f, b, q, w, Cross(t, w));
    assert Sub(Cross(t, w), Cross(t, w)) == Zeros(3) && q[..4][..4] == q[..4];
    TurningMap(f, s, q[..4], w, Zeros(3));
    MatVecZeros(Transpose(QuaternionRotation(Normalised(f, q[..4])), 3), 3);
  }

  /** The child of a free joint sits at the last three coordinates. */
  lemma FreeOrigin(f: Analysis, b: Body, q: Vec)
    requires UsableBody(f, b) && UsableCoordinates(f, b.joint, q) && b.joint == "free" && Unplaced(b)
    ensures |q| == 7 && OriginAt(ChildMap(f, b, q), q[4..7])
  {
    hide MatVec, Cross, ChildMap, UsableBody, UsableCoordinates, Unplaced, SeenAtChild;
    FreeTurning(f, b, q, Zeros(3));
    forall w: Vec | |w| == 3
      ensures SeenAtChild(ChildMap(f, b, q), q[4..7], w) == Zeros(3)
    {
      FreeTurning(f, b, q, w);
    }
  }

  // ---------------------------------------------------------------- the motions of the columns

  lemma OneColumn(x: real, v: Vec)
    requires |v| == 6
    ensures Comb([x], [v], 6) == Scale(x, v)
  {
    assert Comb([x][..0], [v][..0], 6) == Zeros(6);
  }

  lemma UnitCombination(w: Vec)
    requires |w| <= 6
    ensures Comb(w, UnitColumns(|w|), 6) == w + Zeros(6 - |w|)
  {
    hide Dot, Comb;
    var n, s := |w|, UnitColumns(|w|);
    forall j | 0 <= j < 6
      ensures Comb(w, s, 6)[j] == (w + Zeros(6 - n))[j]
    {
      CombAt(w, s, 6, j);
      if j < n {
        assert Column(s, 6, j) == Unit(n, j);
        DotUnit(n, j, w);
      } else {
        assert Column(s, 6, j) == Zeros(n);
        DotZeros(w);
      }
    }
  }

  /** What a joint's rates mean: turning about the unit axis, sliding along it, or the rates as the motion itself. */
  lemma RatesAreMotions(f: Analysis, b: Body, rate: Vec)
    requires UsableBody(f, b) && JointSizes(b.joint).Some? && |rate| == JointSizes(b.joint).value.1
    ensures var motion := Comb(rate, JointSubspace(f, b), 6);
            && (b.joint == "revolute" ==> motion == Scale(rate[0], Normalised(f, b.axis)) + Zeros(3))
            && (b.joint == "prismatic" ==> motion == Zeros(3) + Scale(rate[0], Normalised(f, b.axis)))
            && (b.joint == "spherical" ==> motion == rate + Zeros(3))
            && (b.joint == "free" ==> motion == rate) && (b.joint == "welded" ==> motion == Zeros(6))
  {
    hide Comb, Normalised, UnitColumns;
    if b.joint == "revolute" || b.joint == "prismatic" {
      var u := Normalised(f, b.axis);
      assert rate == [rate[0]];
      OneColumn(rate[0], u + Zeros(3));
      OneColumn(rate[0], Zeros(3) + u);
      ScaleHalves(rate[0], u);
    } else if b.joint == "welded" {
      NoColumns(rate, JointSubspace(f, b));
    } else {
      UnitCombination(rate);
      assert rate + Zeros(0) == rate;
    }
  }

  lemma ScaleHalves(k: real, u: Vec)
    requires |u| == 3
    ensures Scale(k, u + Zeros(3)) == Scale(k, u) + Zeros(3)
    ensures Scale(k, Zeros(3) + u) == Zeros(3) + Scale(k, u)
  {
    var l, r := Scale(k, u + Zeros(3)), Scale(k, Zeros(3) + u);
    forall i | 0 <= i < 6
      ensures l[i] == (Scale(k, u) + Zeros(3))[i] && r[i] == (Zeros(3) + Scale(k, u))[i]
    {
      Distribute(k, 0.0, 0.0);
    }
  }

  lemma NoColumns(rate: Vec, s: seq<Vec>)
    requires rate == [] && s == []
    ensures Comb(rate, s, 6) == Zeros(6)
  {
  }

  /** The revolute transform turns about the angular half of its column, in the sense of its sine. */
  lemma RevoluteColumn(f: Analysis, b: Body, angle: real, p: Vec)
    requires UsableBody(f, b) && b.joint == "revolute" && Unplaced(b) && |p| == 3
    ensures UsableCoordinates(f, b.joint, [angle])
    ensures var u := ColumnOf(f, b)[..3];
            && ColumnOf(f, b)[3..] == Zeros(3)
            && MatVec(ChildMap(f, b, [angle]), p + Zeros(3))[..3]
               == Rodrigues(u, f.cos(angle), f.sin(angle), p)
  {
    hide MatVec, Cross, Normalised, ChildMap, AxisRotation, Dot, Rodrigues;
    var u := Normalised(f, b.axis);
    assert ColumnOf(f, b) == u + Zeros(3) && ColumnOf(f, b)[..3] == u;
    TurningMap(f, b, [angle], p, Zeros(3));
    AxisRotationActs(u, f.cos(angle), f.sin(angle), p);
    var r := AxisRotation(u, f.cos(angle), f.sin(angle));
    assert (MatVec(r, p) + MatVec(r, Zeros(3)))[..3] == MatVec(r, p);
  }
}
