/** The frame changes that the joints produce: each is rigid, and how revolute and spherical joints compare. */
module JointKinematics {
  import opened Wrappers
  import opened Reals
  import opened LinearAlgebra
  import opened SpatialAlgebra
  import opened Rotations
  import opened ForwardDynamics

  /** The facts about the math library that the rotation formulas rest on. */
  ghost predicate ValidAnalysis(f: Analysis) {
    && (forall x: real :: f.cos(x) * f.cos(x) + f.sin(x) * f.sin(x) == 1.0)
    && (forall x: real :: x >= 0.0 ==> f.sqrt(x) >= 0.0 && f.sqrt(x) * f.sqrt(x) == x)
  }

  lemma InverseSquare(n: real, d: real)
    requires n != 0.0 && n * n == d
    ensures (1.0 / n) * ((1.0 / n) * d) == 1.0
  {
    var k := 1.0 / n;
    assert k * n == 1.0;
    assert k * (k * (n * n)) == (k * n) * (k * n);
  }

  /** Dividing by the length leaves a unit vector. */
  lemma NormalisedIsUnit(f: Analysis, v: Vec)
    requires ValidAnalysis(f) && f.sqrt(Dot(v, v)) != 0.0
    ensures Dot(Normalised(f, v), Normalised(f, v)) == 1.0
  {
    hide Dot, Scale;
    DotSelf(v);
    var d, k := Dot(v, v), 1.0 / f.sqrt(Dot(v, v));
    DotScale(k, v, Scale(k, v));
    DotScale(k, v, v);
    InverseSquare(f.sqrt(d), d);
  }

  lemma Dot4(x: Vec, y: Vec)
    requires |x| == |y| == 4
    ensures Dot(x, y) == x[0] * y[0] + x[1] * y[1] + x[2] * y[2] + x[3] * y[3]
  {
    hide Dot;
    DotFront(x, y);
    Dot3(x[1..], y[1..]);
  }

  lemma UnitCircle(f: Analysis, x: real)
    requires ValidAnalysis(f)
    ensures f.cos(x) * f.cos(x) + f.sin(x) * f.sin(x) == 1.0
  {
  }

  /** The child-from-parent matrix of a unit quaternion. */
  lemma TransposedIsProper(q: Vec)
    requires |q| == 4 && Dot(q, q) == 1.0
    ensures ProperRotation(Transpose(QuaternionRotation(q), 3))
  {
    hide Dot, ProperRotation, QuaternionRotation, Transpose;
    Dot4(q, q);
    TransposedQuaternion(q);
    QuaternionRotationIsProper([q[0], -q[1], -q[2], -q[3]]);
  }

  lemma IdentityIsProper()
    ensures ProperRotation(Identity(3))
  {
    hide Dot, ProperRotation;
    var r := Identity(3);
    ProperByEntries(r);
  }

  /** Every joint kind, at every position, turns the frame by a proper rotation. */
  lemma JointIsRigid(f: Analysis, b: Body, q: Vec)
    requires ValidAnalysis(f) && UsableBody(f, b) && UsableCoordinates(f, b.joint, q)
    ensures ProperRotation(JointTransform(f, b, q).0)
  {
    hide Dot, ProperRotation, QuaternionRotation, AxisRotation, Transpose, Identity, Normalised;
    if b.joint == "free" || b.joint == "spherical" {
      NormalisedIsUnit(f, q[..4]);
      TransposedIsProper(Normalised(f, q[..4]));
    } else if b.joint == "revolute" {
      NormalisedIsUnit(f, b.axis);
      UnitCircle(f, q[0]);
      AxisRotationIsProper(Normalised(f, b.axis), f.cos(q[0]), f.sin(q[0]));
    } else {
      IdentityIsProper();
    }
  }

  /** The transform of a body is its fixed placement followed by its joint, as maps on spatial motions. */
  lemma TransformIsPlacementThenJoint(f: Analysis, b: Body, q: Vec, qd: Vec, force: Vec, external: Vec)
    requires UsableBody(f, b) && UsableCoordinates(f, b.joint, q) && ProperRotation(b.fixedRotation)
    requires |qd| == |force| == JointSizes(b.joint).value.1 && |external| == 6
    ensures var (rotation, translation) := JointTransform(f, b, q);
            LinkFrom(f, b, q, qd, force, external).transform
            == MatMul(MotionTransform(rotation, translation), MotionTransform(b.fixedRotation, b.fixedTranslation), 6)
  {
    hide ProperRotation, JointTransform, MotionTransform, MatMul, Compose, JointSubspace;
    var (rotation, translation) := JointTransform(f, b, q);
    ComposeIsProduct(b.fixedRotation, b.fixedTranslation, rotation, translation);
  }

  // ---------------------------------------------------------------- revolute against spherical

  lemma HalfAngleEntries(x: real, y: real, z: real, a: real, b: real, c: real, s: real, k: real,
                         qx: real, qy: real, qz: real)
    requires x * x + y * y + z * z == 1.0 && a * a + b * b == 1.0
    requires c == a * a - b * b && s == 2.0 * (a * b) && k == 1.0 - c && qx == b * x && qy == b * y && qz == b * z
    ensures AxisDiagonal(k, c, x) == QuatDiagonal(qy, qz)
    ensures AxisMinus(k, s, x, y, z) == QuatMinus(a, qx, qy, qz)
    ensures AxisPlus(k, s, x, y, z) == QuatPlus(a, qx, qy, qz)
  {
    var n := x * x + y * y + z * z;
    assert k == 2.0 * (b * b);
    assert x * x * (2.0 * (b * b)) == 2.0 * (b * b) * n - 2.0 * ((b * y) * (b * y) + (b * z) * (b * z));
    assert x * y * (2.0 * (b * b)) == 2.0 * ((b * x) * (b * y));
    assert z * (2.0 * (a * b)) == 2.0 * (a * (b * z));
  }

  /** The quaternion of half the angle gives the matrix of the axis and the angle. */
  lemma HalfAngle(u: Vec, a: real, b: real, c: real, s: real, q: Vec)
    requires |u| == 3 && Dot(u, u) == 1.0 && a * a + b * b == 1.0 && c == a * a - b * b && s == 2.0 * (a * b)
    requires q == [a] + Scale(b, u)
    ensures AxisRotation(u, c, s) == QuaternionRotation(q)
  {
    hide Dot, AxisDiagonal, AxisMinus, AxisPlus, QuatDiagonal, QuatMinus, QuatPlus;
    Dot3(u, u);
    var x, y, z, k := u[0], u[1], u[2], 1.0 - c;
    HalfAngleEntries(x, y, z, a, b, c, s, k, q[1], q[2], q[3]);
    HalfAngleEntries(y, z, x, a, b, c, s, k, q[2], q[3], q[1]);
    HalfAngleEntries(z, x, y, a, b, c, s, k, q[3], q[1], q[2]);
    HalfAngleEntries(x, z, y, a, b, c, s, k, q[1], q[3], q[2]);
    HalfAngleEntries(y, x, z, a, b, c, s, k, q[2], q[1], q[3]);
    HalfAngleEntries(z, y, x, a, b, c, s, k, q[3], q[2], q[1]);
  }

  lemma HalfAngleNorm(u: Vec, a: real, b: real)
    requires |u| == 3 && Dot(u, u) == 1.0 && a * a + b * b == 1.0
    ensures Dot([a] + Scale(b, u), [a] + Scale(b, u)) == 1.0
  {
    hide Dot, Scale;
    var q := [a] + Scale(b, u);
    DotFront(q, q);
    assert q[1..] == Scale(b, u);
    DotScale(b, u, Scale(b, u));
    DotScale(b, u, u);
  }

  lemma UnitRoot(n: real)
    requires n >= 0.0 && n * n == 1.0
    ensures n == 1.0
  {
    if n < 1.0 {
      NonNegativeProduct(n, 1.0 - n);
    } else {
      NonNegativeProduct(n, n - 1.0);
    }
  }

  lemma UnitIsKept(f: Analysis, q: Vec)
    requires ValidAnalysis(f) && Dot(q, q) == 1.0
    ensures f.sqrt(Dot(q, q)) == 1.0 && Normalised(f, q) == q
  {
    hide Dot;
    UnitRoot(f.sqrt(1.0));
    assert Scale(1.0, q) == q;
  }

  /**
   * A revolute joint and a spherical joint given the same turn, the first by its angle and the second by the
   * quaternion of half that angle, produce transposed matrices.
   */
  lemma RevoluteAgainstSpherical(f: Analysis, r: Body, s: Body, angle: real, a: real, b: real)
    requires ValidAnalysis(f) && UsableBody(f, r) && UsableBody(f, s) && r.joint == "revolute" && s.joint == "spherical"
    requires a * a + b * b == 1.0 && f.cos(angle) == a * a - b * b && f.sin(angle) == 2.0 * (a * b)
    ensures var q := [a] + Scale(b, Normalised(f, r.axis));
            && UsableCoordinates(f, "revolute", [angle]) && UsableCoordinates(f, "spherical", q)
            && JointTransform(f, s, q).0 == Transpose(JointTransform(f, r, [angle]).0, 3)
  {
    hide Dot, QuaternionRotation, AxisRotation, Transpose, Normalised, Scale;
    var u := Normalised(f, r.axis);
    var q := [a] + Scale(b, u);
    NormalisedIsUnit(f, r.axis);
    HalfAngleNorm(u, a, b);
    UnitIsKept(f, q);
    assert q[..4] == q;
    HalfAngle(u, a, b, f.cos(angle), f.sin(angle), q);
  }

  lemma OwnTranspose(r: Mat)
    requires IsMat(r, 3, 3)
    ensures Transpose(r, 3) == r <==> r[0][1] == r[1][0] && r[0][2] == r[2][0] && r[1][2] == r[2][1]
  {
    var t := Transpose(r, 3);
    assert t[0][1] == r[1][0] && t[0][2] == r[2][0] && t[1][2] == r[2][1];
    if r[0][1] == r[1][0] && r[0][2] == r[2][0] && r[1][2] == r[2][1] {
      assert t[0] == r[0] && t[1] == r[1] && t[2] == r[2];
    }
  }

  /** The two entries across the diagonal differ by twice the sine times the remaining axis component. */
  lemma OffDiagonal(k: real, s: real, x: real, y: real, z: real)
    ensures AxisMinus(k, s, x, y, z) == AxisPlus(k, s, y, x, z) <==> z * s == 0.0
  {
    assert x * y * k == y * x * k;
  }

  lemma SomeComponent(x: real, y: real, z: real, s: real)
    requires x * x + y * y + z * z == 1.0
    ensures x * s == 0.0 && y * s == 0.0 && z * s == 0.0 <==> s == 0.0
  {
    assert s == x * (x * s) + y * (y * s) + z * (z * s);
  }

  lemma SymmetricAxisRotation(u: Vec, c: real, s: real)
    requires |u| == 3 && Dot(u, u) == 1.0
    ensures Transpose(AxisRotation(u, c, s), 3) == AxisRotation(u, c, s) <==> s == 0.0
  {
    hide Dot, Transpose, AxisDiagonal, AxisMinus, AxisPlus;
    var x, y, z, k := u[0], u[1], u[2], 1.0 - c;
    Dot3(u, u);
    OwnTranspose(AxisRotation(u, c, s));
    OffDiagonal(k, s, x, y, z);
    OffDiagonal(k, s, z, x, y);
    OffDiagonal(k, s, y, z, x);
    SomeComponent(x, y, z, s);
  }

  /** So the two joint kinds turn a body the same way only by angles whose sine is zero. */
  lemma TurnsAgreeExactly(f: Analysis, r: Body, s: Body, angle: real, a: real, b: real)
    requires ValidAnalysis(f) && UsableBody(f, r) && UsableBody(f, s) && r.joint == "revolute" && s.joint == "spherical"
    requires a * a + b * b == 1.0 && f.cos(angle) == a * a - b * b && f.sin(angle) == 2.0 * (a * b)
    ensures var q := [a] + Scale(b, Normalised(f, r.axis));
            && UsableCoordinates(f, "revolute", [angle]) && UsableCoordinates(f, "spherical", q)
            && (JointTransform(f, s, q).0 == JointTransform(f, r, [angle]).0 <==> f.sin(angle) == 0.0)
  {
    hide Dot, AxisRotation, Transpose, Normalised, Scale, UsableBody, QuaternionRotation;
    RevoluteAgainstSpherical(f, r, s, angle, a, b);
    AxisIsUnit(f, r);
    SymmetricAxisRotation(Normalised(f, r.axis), f.cos(angle), f.sin(angle));
  }

  lemma AxisIsUnit(f: Analysis, r: Body)
    requires ValidAnalysis(f) && UsableBody(f, r) && r.joint == "revolute"
    ensures |r.axis| == 3 && f.sqrt(Dot(r.axis, r.axis)) != 0.0
    ensures Dot(Normalised(f, r.axis), Normalised(f, r.axis)) == 1.0
  {
    NormalisedIsUnit(f, r.axis);
  }

  /**
   * One such turn, by twice the angle whose cosine is 4/5: about the third axis the two joint kinds produce
   * different matrices.
   */
  lemma SomeTurnsDiffer(f: Analysis, angle: real)
    requires ValidAnalysis(f) && f.cos(angle) == 7.0 / 25.0 && f.sin(angle) == 24.0 / 25.0
    ensures var r := Body(None, "revolute", [0.0, 0.0, 1.0], Identity(6), Identity(3), Zeros(3));
            var s := r.(joint := "spherical");
            && UsableBody(f, r) && UsableBody(f, s)
            && var q := [4.0 / 5.0] + Scale(3.0 / 5.0, Normalised(f, r.axis));
            && UsableCoordinates(f, "revolute", [angle]) && UsableCoordinates(f, "spherical", q)
            && JointTransform(f, s, q).0 != JointTransform(f, r, [angle]).0
  {
    hide Dot, Normalised, JointTransform;
    var r := Body(None, "revolute", [0.0, 0.0, 1.0], Identity(6), Identity(3), Zeros(3));
    Dot3(r.axis, r.axis);
    UnitIsKept(f, r.axis);
    TurnsAgreeExactly(f, r, r.(joint := "spherical"), angle, 4.0 / 5.0, 3.0 / 5.0);
  }
}
