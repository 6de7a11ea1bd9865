/** The query a client makes, and exactly which ray directions it answers without error. */
module RayQueryExactness {
  import opened Reals
  import opened PanelMesh
  import opened PanelBvh
  import opened RayQuery

  lemma AllValid(m: Mesh)
    requires ValidMesh(m)
    ensures ValidIndices(m, All(m)) && |All(m)| > 0
  {
  }

  /** The tree query from the root. */
  ghost predicate Query(m: Mesh, o: Vector3, d: Vector3)
    requires ValidMesh(m)
  {
    AllValid(m);
    WholeTreeSearchable(m);
    var b := Build(m, All(m), 0, 0);
    RayIntersectsNode(m, b.nodes, b.order, 0, o, d)
  }

  /** Testing every triangle. */
  ghost predicate BruteForce(m: Mesh, o: Vector3, d: Vector3)
    requires ValidMesh(m)
  {
    exists t: nat :: t < |m.triangles| && RayIntersectsMeshTriangle(m, t, o, d)
  }

  lemma WholeTreeSearchable(m: Mesh)
    requires ValidMesh(m) && ValidIndices(m, All(m))
    ensures var b := Build(m, All(m), 0, 0); Searchable(m, b.nodes, b.order)
  {
    hide Build, Tree;
    WholeTree(m);
    var b := Build(m, All(m), 0, 0);
    forall k | 0 <= k < |b.order|
      ensures b.order[k] < |m.triangles|
    {
      assert b.order[k] in b.order;
    }
  }

  lemma QueryMeaning(m: Mesh, o: Vector3, d: Vector3)
    requires ValidMesh(m)
    ensures Query(m, o, d) ==> BruteForce(m, o, d)
    ensures RegularDirection(d) ==> (Query(m, o, d) <==> BruteForce(m, o, d))
  {
    hide Build, RayIntersectsNode, RegularDirection, RayIntersectsMeshTriangle, GoodTriangle;
    AllValid(m);
    WholeTreeSearchable(m);
    var b := Build(m, All(m), 0, 0);
    assert b.nodes[0..0 + |b.nodes|] == b.nodes && b.order[0..0 + |b.order|] == b.order;
    QueryAgrees(m, All(m), b.nodes, b.order, 0, 0, o, d);
    AllIsAny(m, o, d);
  }

  lemma AllIsAny(m: Mesh, o: Vector3, d: Vector3)
    requires ValidMesh(m) && ValidIndices(m, All(m))
    ensures AnyHit(m, All(m), o, d) <==> BruteForce(m, o, d)
  {
    hide RayIntersectsMeshTriangle, GoodTriangle;
    if t: nat :| t < |m.triangles| && RayIntersectsMeshTriangle(m, t, o, d) {
      assert All(m)[t] == t;
    }
  }

  // ---------------------------------------------------------------- the public query

  datatype QueryResult = Answer(found: bool) | ZeroDirection

  /**
   * The answer is the tree query's; "hit" is always true of some triangle, and for a regular
   * direction "no hit" is true of all of them.
   */
  ghost predicate Trustworthy(m: Mesh, o: Vector3, d: Vector3, found: bool)
    requires ValidMesh(m)
  {
    && (found <==> Query(m, o, d))
    && (found ==> BruteForce(m, o, d))
    && (RegularDirection(d) ==> (found <==> BruteForce(m, o, d)))
  }

  ghost predicate IsNorm(norm: real, v: Vector3) {
    norm >= 0.0 && norm * norm == v.Dot(v)
  }

  function UnitDirection(direction: Vector3, norm: real): Vector3
    requires norm != 0.0
  {
    direction.Times(1.0 / norm)
  }

  /** The direction that is queried has length one and points the way it was given. */
  lemma UnitDirectionMeaning(direction: Vector3, norm: real)
    requires IsNorm(norm, direction) && direction != Vector3(0.0, 0.0, 0.0)
    ensures norm > 0.0
    ensures UnitDirection(direction, norm).Dot(UnitDirection(direction, norm)) == 1.0
    ensures UnitDirection(direction, norm).Times(norm) == direction
  {
    NormIsZero(direction, norm);
    var x, y, z := direction.x, direction.y, direction.z;
    var k := 1.0 / norm;
    assert k * norm == 1.0;
    Undone(k, norm, x);
    Undone(k, norm, y);
    Undone(k, norm, z);
    SquareOfProduct(k, x);
    SquareOfProduct(k, y);
    SquareOfProduct(k, z);
    SquareOfProduct(k, norm);
    assert (k * k) * (x * x + y * y + z * z) == (k * x) * (k * x) + (k * y) * (k * y) + (k * z) * (k * z);
  }

  lemma Undone(k: real, n: real, x: real)
    requires k * n == 1.0
    ensures n * (k * x) == x
  {
    assert n * (k * x) == (k * n) * x;
  }

  /** Normalises the direction and asks the tree; `norm` is the Euclidean length of `direction`. */
  method RayIntersects(bvh: PanelMeshBvh, origin: Vector3, direction: Vector3, norm: real) returns (r: QueryResult)
    requires bvh.Valid() && ValidMesh(bvh.mesh) && IsNorm(norm, direction)
    ensures r.ZeroDirection? <==> direction == Vector3(0.0, 0.0, 0.0)
    ensures r.Answer? ==> norm > 0.0
    ensures r.Answer? ==> Trustworthy(bvh.mesh, origin, UnitDirection(direction, norm), r.found)
  {
    hide PanelMeshBvh.Valid, Trustworthy, UnitDirection, IsNorm, ValidMesh;
    NormIsZero(direction, norm);
    if !(norm > 0.0) {
      return ZeroDirection;
    }
    r := AskTree(bvh, origin, UnitDirection(direction, norm));
  }

  method AskTree(bvh: PanelMeshBvh, o: Vector3, d: Vector3) returns (r: QueryResult)
    requires bvh.Valid() && ValidMesh(bvh.mesh)
    ensures r.Answer? && Trustworthy(bvh.mesh, o, d, r.found)
  {
    hide Build, RayIntersectsNode, RegularDirection, BruteForce, Watertight, Searchable;
    AllValid(bvh.mesh);
    WholeTreeSearchable(bvh.mesh);
    QueryMeaning(bvh.mesh, o, d);
    r := Answer(RayIntersectsNode(bvh.mesh, bvh.nodes, bvh.triangleOrder, 0, o, d));
  }

  lemma NormIsZero(d: Vector3, norm: real)
    requires IsNorm(norm, d)
    ensures norm >= 0.0 && (norm == 0.0 <==> d == Vector3(0.0, 0.0, 0.0))
  {
    SquareOf(norm, norm * norm);
    SquareOf(d.x, d.x * d.x);
    SquareOf(d.y, d.y * d.y);
    SquareOf(d.z, d.z * d.z);
    assert d.Dot(d) == d.x * d.x + d.y * d.y + d.z * d.z;
  }

  lemma SignOfProduct(a: real, b: real, p: real)
    requires p == a * b
    ensures (a > 0.0 && b > 0.0) || (a < 0.0 && b < 0.0) ==> p > 0.0
    ensures a == 0.0 ==> p == 0.0
  {
  }

  lemma SquareOf(a: real, p: real)
    requires p == a * a
    ensures p >= 0.0 && (a == 0.0 <==> p == 0.0)
  {
    SignOfProduct(a, a, p);
  }

  // ---------------------------------------------------------------- where pruning goes wrong

  /** The unit tetrahedron: one face in each coordinate plane and the slanted one. */
  function Tetrahedron(): Mesh {
    Mesh([Vector3(0.0, 0.0, 0.0), Vector3(1.0, 0.0, 0.0), Vector3(0.0, 1.0, 0.0), Vector3(0.0, 0.0, 1.0)],
         [Triangle(0, 2, 3), Triangle(0, 1, 3), Triangle(0, 1, 2), Triangle(1, 2, 3)])
  }

  function Origin(): Vector3 { Vector3(0.0, 0.0, 0.0) }

  function AxisX(): Vector3 { Vector3(1.0, 0.0, 0.0) }

  function AxisY(): Vector3 { Vector3(0.0, 1.0, 0.0) }

  function AxisZ(): Vector3 { Vector3(0.0, 0.0, 1.0) }

  lemma FaceCorners()
    ensures var m := Tetrahedron();
            && VertexOf(m, 0, 0) == Origin() && VertexOf(m, 0, 1) == AxisY() && VertexOf(m, 0, 2) == AxisZ()
            && VertexOf(m, 1, 0) == Origin() && VertexOf(m, 1, 1) == AxisX() && VertexOf(m, 1, 2) == AxisZ()
            && VertexOf(m, 2, 0) == Origin() && VertexOf(m, 2, 1) == AxisX() && VertexOf(m, 2, 2) == AxisY()
            && VertexOf(m, 3, 0) == AxisX() && VertexOf(m, 3, 1) == AxisY() && VertexOf(m, 3, 2) == AxisZ()
  {
  }

  lemma CrossOf(u: real, v: real, w: real, x: real, y: real, z: real, r: Vector3)
    requires r == Vector3(v * z - w * y, w * x - u * z, u * y - v * x)
    ensures Vector3(u, v, w).Cross(Vector3(x, y, z)) == r
  {
  }

  lemma FaceAreas()
    ensures AxisY().Minus(Origin()).Cross(AxisZ().Minus(Origin())) != Origin()
    ensures AxisX().Minus(Origin()).Cross(AxisZ().Minus(Origin())) != Origin()
    ensures AxisX().Minus(Origin()).Cross(AxisY().Minus(Origin())) != Origin()
    ensures AxisY().Minus(AxisX()).Cross(AxisZ().Minus(AxisX())) != Origin()
  {
    hide Vector3.Cross;
    CrossOf(0.0, 1.0, 0.0, 0.0, 0.0, 1.0, Vector3(1.0, 0.0, 0.0));
    CrossOf(1.0, 0.0, 0.0, 0.0, 0.0, 1.0, Vector3(0.0, -1.0, 0.0));
    CrossOf(1.0, 0.0, 0.0, 0.0, 1.0, 0.0, Vector3(0.0, 0.0, 1.0));
    CrossOf(-1.0, 1.0, 0.0, -1.0, 0.0, 1.0, Vector3(1.0, 1.0, 1.0));
  }

  lemma TetrahedronIsValid()
    ensures ValidMesh(Tetrahedron())
  {
    hide Vector3.Cross, Vector3.Minus, AxisX, AxisY, AxisZ;
    FaceCorners();
    FaceAreas();
    var m := Tetrahedron();
    forall i | 0 <= i < 4
      ensures GoodTriangle(m, m.triangles[i])
    {
      assert AreaVector(m, m.triangles[i])
          == VertexOf(m, i, 1).Minus(VertexOf(m, i, 0)).Cross(VertexOf(m, i, 2).Minus(VertexOf(m, i, 0)));
    }
  }

  lemma TetrahedronIncidence()
    ensures var ts := Tetrahedron().triangles;
            && Incident(ts, (0, 1)) == {1, 2} && Incident(ts, (0, 2)) == {0, 2} && Incident(ts, (0, 3)) == {0, 1}
            && Incident(ts, (1, 2)) == {2, 3} && Incident(ts, (1, 3)) == {1, 3} && Incident(ts, (2, 3)) == {0, 3}
  {
    var ts := Tetrahedron().triangles;
    assert TriangleEdges(ts[0]) == [(0, 2), (2, 3), (0, 3)] && TriangleEdges(ts[1]) == [(0, 1), (1, 3), (0, 3)];
    assert TriangleEdges(ts[2]) == [(0, 1), (1, 2), (0, 2)] && TriangleEdges(ts[3]) == [(1, 2), (2, 3), (1, 3)];
  }

  lemma {:induction false} EdgeOfSome(ts: seq<Triangle>, e: Edge)
    requires e in EdgeList(ts)
    ensures exists i :: 0 <= i < |ts| && e in TriangleEdges(ts[i])
  {
    hide TriangleEdges;
    if e in EdgeList(ts[..|ts| - 1]) {
      EdgeOfSome(ts[..|ts| - 1], e);
    }
  }

  lemma TetrahedronIsWatertight()
    ensures ValidMesh(Tetrahedron()) && Watertight(Tetrahedron().triangles)
  {
    hide EdgeList, GoodTriangle, Incident;
    TetrahedronIsValid();
    TetrahedronIncidence();
    var ts := Tetrahedron().triangles;
    forall e | e in Edges(ts)
      ensures |Incident(ts, e)| == 2
    {
      EdgeOfSome(ts, e);
    }
  }

  /** The test for a triangle with its first corner at the origin, from its Cramer numerators. */
  lemma HitAtOrigin(b: Vector3, c: Vector3, o: Vector3, d: Vector3, det: real, u: real, v: real, t: real)
    requires det == b.Dot(d.Cross(c)) && Abs(det) > TINY
    requires o.Dot(d.Cross(c)) == u * det && d.Dot(o.Cross(b)) == v * det && c.Dot(o.Cross(b)) == t * det
    requires u >= 0.0 && v >= 0.0 && u + v <= 1.0 && t > TINY
    ensures RayIntersectsTriangle(Origin(), b, c, o, d)
  {
    hide Vector3.Dot, Vector3.Cross, RayIntersectsTriangle;
    assert b.Minus(Origin()) == b && c.Minus(Origin()) == c && o.Minus(Origin()) == o;
    HitFromNumerators(Origin(), b, c, o, d, det, u, v, t);
  }

  /** The numerators for a face spanned by two coordinate axes, met a quarter of the way along both. */
  lemma FaceNumerators(j: real, k: real, oj: real, ok: real, t: real)
    requires oj == -(t * j) && ok == 0.25 - t * k
    ensures oj * k - ok * j == -0.25 * j
  {
    assert (t * j) * k == (t * k) * j;
  }

  lemma FaceX(o: Vector3, d: Vector3, t: real)
    requires o.x == -(t * d.x) && o.y == 0.25 - t * d.y && o.z == 0.25 - t * d.z
    requires t > TINY && Abs(d.x) > TINY
    ensures RayIntersectsTriangle(Origin(), AxisY(), AxisZ(), o, d)
  {
    hide RayIntersectsTriangle, Vector3.Dot, Vector3.Cross, AxisY, AxisZ;
    FaceNumerators(d.x, d.y, o.x, o.y, t);
    FaceNumerators(d.x, d.z, o.x, o.z, t);
    FaceXTerms(o, d);
    HitAtOrigin(AxisY(), AxisZ(), o, d, -d.x, 0.25, 0.25, t);
  }

  lemma FaceXTerms(o: Vector3, d: Vector3)
    ensures AxisY().Dot(d.Cross(AxisZ())) == -d.x
    ensures o.Dot(d.Cross(AxisZ())) == o.x * d.y - o.y * d.x
    ensures d.Dot(o.Cross(AxisY())) == o.x * d.z - o.z * d.x
    ensures AxisZ().Dot(o.Cross(AxisY())) == o.x
  {
  }

  lemma FaceY(o: Vector3, d: Vector3, t: real)
    requires o.x == 0.25 - t * d.x && o.y == -(t * d.y) && o.z == 0.25 - t * d.z
    requires t > TINY && Abs(d.y) > TINY
    ensures RayIntersectsTriangle(Origin(), AxisX(), AxisZ(), o, d)
  {
    hide RayIntersectsTriangle, Vector3.Dot, Vector3.Cross, AxisX, AxisZ;
    FaceNumerators(d.y, d.x, o.y, o.x, t);
    FaceNumerators(d.y, d.z, o.y, o.z, t);
    FaceYTerms(o, d);
    HitAtOrigin(AxisX(), AxisZ(), o, d, d.y, 0.25, 0.25, t);
  }

  lemma FaceYTerms(o: Vector3, d: Vector3)
    ensures AxisX().Dot(d.Cross(AxisZ())) == d.y
    ensures o.Dot(d.Cross(AxisZ())) == -(o.y * d.x - o.x * d.y)
    ensures d.Dot(o.Cross(AxisX())) == -(o.y * d.z - o.z * d.y)
    ensures AxisZ().Dot(o.Cross(AxisX())) == -o.y
  {
  }

  lemma FaceZ(o: Vector3, d: Vector3, t: real)
    requires o.x == 0.25 - t * d.x && o.y == 0.25 - t * d.y && o.z == -(t * d.z)
    requires t > TINY && Abs(d.z) > TINY
    ensures RayIntersectsTriangle(Origin(), AxisX(), AxisY(), o, d)
  {
    hide RayIntersectsTriangle, Vector3.Dot, Vector3.Cross, AxisX, AxisY;
    FaceNumerators(d.z, d.x, o.z, o.x, t);
    FaceNumerators(d.z, d.y, o.z, o.y, t);
    FaceZTerms(o, d);
    HitAtOrigin(AxisX(), AxisY(), o, d, -d.z, 0.25, 0.25, t);
  }

  lemma FaceZTerms(o: Vector3, d: Vector3)
    ensures AxisX().Dot(d.Cross(AxisY())) == -d.z
    ensures o.Dot(d.Cross(AxisY())) == o.z * d.x - o.x * d.z
    ensures d.Dot(o.Cross(AxisX())) == o.z * d.y - o.y * d.z
    ensures AxisY().Dot(o.Cross(AxisX())) == o.z
  {
  }

  // ---------------------------------------------------------------- the exact condition

  lemma UnitHasLargeComponent(d: Vector3)
    requires d.Dot(d) == 1.0
    ensures Abs(d.x) >= 0.5 || Abs(d.y) >= 0.5 || Abs(d.z) >= 0.5
  {
    SmallSquare(d.x, d.x, d.x * d.x);
    SmallSquare(d.y, d.y, d.y * d.y);
    SmallSquare(d.z, d.z, d.z * d.z);
    assert d.Dot(d) == d.x * d.x + d.y * d.y + d.z * d.z;
  }

  lemma SmallSquare(a: real, b: real, p: real)
    requires a == b && p == a * b
    ensures Abs(a) < 0.5 ==> p < 0.25
  {
    if Abs(a) < 0.5 {
      Between(0.5 - a, 0.5 + b, (0.5 - a) * (0.5 + b));
      assert (0.5 - a) * (0.5 + b) == 0.25 - 0.5 * a + 0.5 * b - p;
    }
  }

  lemma Between(a: real, b: real, p: real)
    requires p == a * b && a > 0.0 && b > 0.0
    ensures p > 0.0
  {
  }

  /** The tetrahedron's bounding box lies in the unit cube. */
  lemma TetrahedronBox()
    requires ValidIndices(Tetrahedron(), All(Tetrahedron()))
    ensures BoxOf(Tetrahedron(), All(Tetrahedron())).Some?
    ensures Inside(BoxOf(Tetrahedron(), All(Tetrahedron())).value, Aabb(Origin(), Vector3(1.0, 1.0, 1.0)))
    ensures ProperBox(BoxOf(Tetrahedron(), All(Tetrahedron())).value)
  {
    hide BoxOf, Inside, AxisX, AxisY, AxisZ, Origin;
    var m, cube := Tetrahedron(), Aabb(Origin(), Vector3(1.0, 1.0, 1.0));
    CornersInCube();
    FaceCorners();
    BoxIsHull(m, All(m), cube);
    assert All(m)[0] == 0;
    assert forall t :: t in All(m) ==> t < 4 && TriangleInBox(m, t, cube);
    BoxIsProper(m, 0, BoxOf(m, All(m)).value);
  }

  lemma CornersInCube()
    ensures var cube := Aabb(Origin(), Vector3(1.0, 1.0, 1.0));
            InBox(Origin(), cube) && InBox(AxisX(), cube) && InBox(AxisY(), cube) && InBox(AxisZ(), cube)
  {
  }

  lemma BoxIsProper(m: Mesh, t: nat, b: Aabb)
    requires t < |m.triangles| && InRange(m, m.triangles[t]) && TriangleInBox(m, t, b)
    ensures ProperBox(b)
  {
  }

  /** On the tetrahedron, one leaf, the query is the box test and then every face. */
  lemma TetrahedronQuery(o: Vector3, d: Vector3)
    requires ValidMesh(Tetrahedron()) && ValidIndices(Tetrahedron(), All(Tetrahedron()))
    requires BoxOf(Tetrahedron(), All(Tetrahedron())).Some?
    ensures Query(Tetrahedron(), o, d) ==> RayIntersectsAabb(o, d, BoxOf(Tetrahedron(), All(Tetrahedron())).value)
  {
    hide BoxOf, RayIntersectsAabb, AnyHit;
  }

  /** Outside the cube along a component that counts as parallel, the box is never entered. */
  lemma ParallelMisses(o: Vector3, d: Vector3, b: Aabb)
    requires ProperBox(b) && Inside(b, Aabb(Origin(), Vector3(1.0, 1.0, 1.0)))
    requires (Abs(d.x) <= TINY && !(0.0 <= o.x <= 1.0)) || (Abs(d.y) <= TINY && !(0.0 <= o.y <= 1.0))
             || (Abs(d.z) <= TINY && !(0.0 <= o.z <= 1.0))
    ensures !RayIntersectsAabb(o, d, b)
  {
    hide SlabInterval;
    SlabTestMeaning(o, d, b);
  }

  /** How far back the ray starts so that the tiny component has carried it two units. */
  lemma StartDistance(c: real) returns (t: real)
    requires c != 0.0 && Abs(c) <= TINY
    ensures t > TINY && !(0.0 <= 0.25 - t * c <= 1.0)
  {
    t := 2.0 / Abs(c);
    assert t * Abs(c) == 2.0;
    if t <= TINY {
      Between(1.0 - t, 1.0, (1.0 - t) * 1.0);
      ProductBelow(t, Abs(c));
    }
  }

  lemma ProductBelow(a: real, b: real)
    requires 0.0 <= a <= 1.0 && 0.0 <= b <= 1.0
    ensures a * b <= 1.0
  {
    ProductOrder(a, b, 0.0, 1.0);
  }

  /** For every unit direction with a tiny nonzero component there is a ray that the query gets wrong. */
  lemma IrregularMisses(d: Vector3) returns (o: Vector3)
    requires d.Dot(d) == 1.0 && !RegularDirection(d)
    ensures ValidMesh(Tetrahedron()) && Watertight(Tetrahedron().triangles)
    ensures BruteForce(Tetrahedron(), o, d) && !Query(Tetrahedron(), o, d)
  {
    hide Query, Tetrahedron, RayIntersectsTriangle, RayIntersectsAabb, Watertight, Vector3.Dot, BoxOf;
    TetrahedronIsWatertight();
    UnitHasLargeComponent(d);
    var c := if d.x != 0.0 && Abs(d.x) <= TINY then d.x else if d.y != 0.0 && Abs(d.y) <= TINY then d.y else d.z;
    var t := StartDistance(c);
    var face: nat;
    o, face := RayThroughFace(d, t);
    assert BruteForce(Tetrahedron(), o, d);
    AllValid(Tetrahedron());
    TetrahedronBox();
    TetrahedronQuery(o, d);
    ParallelMisses(o, d, BoxOf(Tetrahedron(), All(Tetrahedron())).value);
  }

  /** A ray started `t` before the middle of a face that its direction crosses steeply. */
  lemma RayThroughFace(d: Vector3, t: real) returns (o: Vector3, face: nat)
    requires t > TINY && (Abs(d.x) >= 0.5 || Abs(d.y) >= 0.5 || Abs(d.z) >= 0.5)
    ensures face < |Tetrahedron().triangles| && InRange(Tetrahedron(), Tetrahedron().triangles[face])
    ensures RayIntersectsMeshTriangle(Tetrahedron(), face, o, d)
    ensures Abs(d.x) < 0.5 ==> o.x == 0.25 - t * d.x
    ensures Abs(d.y) < 0.5 ==> o.y == 0.25 - t * d.y
    ensures Abs(d.z) < 0.5 ==> o.z == 0.25 - t * d.z
  {
    hide RayIntersectsTriangle, AxisX, AxisY, AxisZ, Origin;
    FaceCorners();
    if Abs(d.x) >= 0.5 {
      o, face := Vector3(-(t * d.x), 0.25 - t * d.y, 0.25 - t * d.z), 0;
      FaceX(o, d, t);
    } else if Abs(d.y) >= 0.5 {
      o, face := Vector3(0.25 - t * d.x, -(t * d.y), 0.25 - t * d.z), 1;
      FaceY(o, d, t);
    } else {
      o, face := Vector3(0.25 - t * d.x, 0.25 - t * d.y, -(t * d.z)), 2;
      FaceZ(o, d, t);
    }
  }

  lemma ProductOfSquares(x: real, c: real, a: real)
    requires x * c == a
    ensures Product(Product(x, x), Product(c, c)) == Product(a, a)
  {
    SquareOfProduct(x, c);
  }

  lemma Distributes(p: real, q: real, k: real)
    ensures Product(p + q, k) == Product(p, k) + Product(q, k)
  {
  }

  lemma UnitFactor(t: real, k: real)
    requires k > 0.0 && Product(t, k) == k
    ensures t == 1.0
  {
    Cancel(t, 1.0, k);
  }

  lemma SumCancels(p: real, q: real, k: real)
    requires k > 0.0 && Product(p, k) + Product(q, k) == k
    ensures p + q == 1.0
  {
    hide Product;
    Distributes(p, q, k);
    UnitFactor(p + q, k);
  }

  lemma UnitRatio(x: real, y: real, c: real, a: real, b: real)
    requires Product(c, c) > 0.0 && x * c == a && y * c == b && Product(a, a) + Product(b, b) == Product(c, c)
    ensures Product(x, x) + Product(y, y) == 1.0
  {
    hide Product;
    ProductOfSquares(x, c, a);
    ProductOfSquares(y, c, b);
    SumCancels(Product(x, x), Product(y, y), Product(c, c));
  }

  /** Such directions exist: this one is a unit vector whose first component is about 2e-13. */
  lemma SomeRayIsMissed() returns (o: Vector3, d: Vector3)
    ensures d.Dot(d) == 1.0 && 0.0 < d.x <= TINY && !RegularDirection(d)
    ensures ValidMesh(Tetrahedron()) && Watertight(Tetrahedron().triangles)
    ensures BruteForce(Tetrahedron(), o, d) && !Query(Tetrahedron(), o, d)
  {
    hide Query, BruteForce, ValidMesh, Watertight, Tetrahedron;
    var n := 10000000000000.0;
    var a, b, c := 2.0 * n, n * n - 1.0, n * n + 1.0;
    d := Vector3(a / c, b / c, 0.0);
    UnitRatio(a / c, b / c, c, a, b);
    o := IrregularMisses(d);
  }

  /**
   * The exact condition for the pruned query. A unit direction is answered as by testing every
   * triangle, on every watertight mesh and from every origin, if and only if none of its components
   * is tiny without being zero.
   */
  lemma PruningIsExactIff(d: Vector3)
    requires d.Dot(d) == 1.0
    ensures RegularDirection(d) <==>
            forall m: Mesh, o: Vector3 ::
              ValidMesh(m) && Watertight(m.triangles) ==> (Query(m, o, d) <==> BruteForce(m, o, d))
  {
    hide Query, BruteForce, ValidMesh, Watertight, RegularDirection, Vector3.Dot, Tetrahedron;
    if RegularDirection(d) {
      forall m: Mesh, o: Vector3 | ValidMesh(m) && Watertight(m.triangles)
        ensures Query(m, o, d) <==> BruteForce(m, o, d)
      {
        QueryMeaning(m, o, d);
      }
    } else {
      var o := IrregularMisses(d);
      assert !(Query(Tetrahedron(), o, d) <==> BruteForce(Tetrahedron(), o, d));
    }
  }
}
