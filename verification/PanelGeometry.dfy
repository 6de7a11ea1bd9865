/** A panel's facet and its load against the corners of the triangle and the direction of the stream. */
module PanelGeometry {
  import opened Reals
  import opened PanelMesh
  import opened PanelBvh
  import opened RayQuery
  import opened RayQueryExactness
  import opened PanelLoads

  // ---------------------------------------------------------------- the facet

  /** The edges from the first corner. */
  function EdgeB(m: Mesh, i: nat): Vector3
    requires i < |m.triangles| && InRange(m, m.triangles[i])
  {
    VertexOf(m, i, 1).Minus(VertexOf(m, i, 0))
  }

  function EdgeC(m: Mesh, i: nat): Vector3
    requires i < |m.triangles| && InRange(m, m.triangles[i])
  {
    VertexOf(m, i, 2).Minus(VertexOf(m, i, 0))
  }

  lemma Lagrange(a: Vector3, b: Vector3)
    ensures a.Cross(b).Dot(a.Cross(b)) == a.Dot(a) * b.Dot(b) - a.Dot(b) * a.Dot(b)
  {
  }

  lemma CrossOrthogonal(a: Vector3, b: Vector3)
    ensures a.Cross(b).Dot(a) == 0.0 == a.Cross(b).Dot(b)
  {
  }

  lemma AreaFromEdges(m: Mesh, i: nat)
    requires i < |m.triangles| && InRange(m, m.triangles[i])
    ensures AreaVector(m, m.triangles[i]) == EdgeB(m, i).Cross(EdgeC(m, i))
  {
  }

  /** Four times the squared area is the Gram determinant of the two edges. */
  lemma FacetArea(norm: Vector3 -> real, m: Mesh, i: nat)
    requires Euclidean(norm) && ValidMesh(m) && i < |m.triangles|
    ensures InRange(m, m.triangles[i]) && norm(AreaVector(m, m.triangles[i])) > 0.0
    ensures var area, b, c := FacetOf(norm, m, i).area, EdgeB(m, i), EdgeC(m, i);
            area > 0.0 && 4.0 * (area * area) == b.Dot(b) * c.Dot(c) - b.Dot(c) * b.Dot(c)
  {
    hide Vector3.Dot, Vector3.Cross, VertexOf, EdgeB, EdgeC, AreaVector, Vector3.Times, Vector3.Plus;
    NormalIsUnit(norm, m, i);
    AreaFromEdges(m, i);
    Lagrange(EdgeB(m, i), EdgeC(m, i));
    var length := norm(AreaVector(m, m.triangles[i]));
    assert IsNorm(length, AreaVector(m, m.triangles[i]));
    HalfSquared(length, FacetOf(norm, m, i).area);
  }

  lemma HalfSquared(length: real, area: real)
    requires area == 0.5 * length
    ensures 4.0 * (area * area) == length * length
  {
  }

  /** The offsets of the corners from the centroid cancel. */
  lemma FacetCentroid(norm: Vector3 -> real, m: Mesh, i: nat)
    requires Euclidean(norm) && ValidMesh(m) && i < |m.triangles|
    ensures InRange(m, m.triangles[i]) && norm(AreaVector(m, m.triangles[i])) > 0.0
    ensures var g := FacetOf(norm, m, i).centroid;
            VertexOf(m, i, 0).Minus(g).Plus(VertexOf(m, i, 1).Minus(g)).Plus(VertexOf(m, i, 2).Minus(g)) == ZERO
    ensures forall axis: nat :: axis < 3 ==> CentroidAxis(m, i, axis) == Component(FacetOf(norm, m, i).centroid, axis)
  {
    NormalIsUnit(norm, m, i);
  }

  /** The normal has length one, is orthogonal to both edges, and sees them turn counter-clockwise. */
  lemma FacetNormal(norm: Vector3 -> real, m: Mesh, i: nat)
    requires Euclidean(norm) && ValidMesh(m) && i < |m.triangles|
    ensures InRange(m, m.triangles[i]) && norm(AreaVector(m, m.triangles[i])) > 0.0
    ensures var n := FacetOf(norm, m, i).normal;
            && n.Dot(n) == 1.0 && n.Dot(EdgeB(m, i)) == 0.0 == n.Dot(EdgeC(m, i))
            && n.Dot(EdgeB(m, i).Cross(EdgeC(m, i))) == 2.0 * FacetOf(norm, m, i).area > 0.0
  {
    hide Vector3.Dot, Vector3.Cross, VertexOf, EdgeB, EdgeC, AreaVector, Vector3.Times, Vector3.Plus;
    NormalIsUnit(norm, m, i);
    AreaFromEdges(m, i);
    var b, c, v := EdgeB(m, i), EdgeC(m, i), AreaVector(m, m.triangles[i]);
    var length := norm(v);
    assert IsNorm(length, v);
    CrossOrthogonal(b, c);
    TimesDot(v, 1.0 / length, b);
    TimesDot(v, 1.0 / length, c);
    TimesDot(v, 1.0 / length, v);
    LengthBack(length, v.Dot(v));
  }

  lemma LengthBack(length: real, square: real)
    requires length > 0.0 && length * length == square
    ensures (1.0 / length) * square == length
  {
    var k := 1.0 / length;
    assert k * length == 1.0;
    assert k * (length * length) == (k * length) * length;
  }

  // ---------------------------------------------------------------- pressure

  /** Pressure acts along the normal. */
  lemma PressureIsNormal(cpMax: real, f: Flow, facet: Facet, e: Vector3)
    requires facet.normal.Dot(e) == 0.0
    ensures PressureForce(cpMax, f, facet).Dot(e) == 0.0
  {
    hide Vector3.Dot, Vector3.Times, PressurePush;
    var n, push := facet.normal, PressurePush(cpMax, f, facet);
    TimesDot(n, -1.0, e);
    TimesDot(n, -push, e);
    TimesDot(n.Times(-1.0), -push, e);
    ZeroTimes(-push);
  }

  lemma ZeroTimes(k: real)
    ensures k * 0.0 == 0.0
  {
  }

  /** A panel met head-on, from either side, carries cpMax times the dynamic pressure times its area. */
  lemma HeadOn(cpMax: real, f: Flow, facet: Facet)
    requires ProperFlow(f) && (facet.normal == f.upstream || facet.normal == f.upstream.Times(-1.0))
    ensures PressureForce(cpMax, f, facet) == f.upstream.Times(-(cpMax * f.dynamicPressure * facet.area))
  {
    hide Vector3.Dot, Vector3.Times;
    var u := f.upstream;
    TimesDot(u, -1.0, u);
    TwiceReversed(u);
    assert facet.normal.Dot(u) == 1.0 || facet.normal.Dot(u) == -1.0;
    assert PressurePush(cpMax, f, facet) == cpMax * 1.0 * 1.0 * f.dynamicPressure * facet.area;
  }

  lemma TwiceReversed(u: Vector3)
    ensures u.Times(-1.0).Times(-1.0) == u
  {
  }

  /** The load grows with the square of the incidence. */
  lemma PressureIsQuadratic(cpMax: real, f: Flow, g: Flow, facet: Facet, k: real)
    requires k > 0.0 && g.dynamicPressure == f.dynamicPressure
    requires facet.normal.Dot(g.upstream) == k * facet.normal.Dot(f.upstream)
    ensures PressureForce(cpMax, g, facet) == PressureForce(cpMax, f, facet).Times(k * k)
  {
    hide Vector3.Dot, Vector3.Times, PressurePush;
    var c := facet.normal.Dot(f.upstream);
    SameSide(k, c);
    PushIsQuadratic(cpMax, f, g, facet, k);
    var facing := if c >= 0.0 then facet.normal else facet.normal.Times(-1.0);
    var p, r := PressurePush(cpMax, f, facet), PressurePush(cpMax, g, facet);
    Negated(k * k, p, r);
    TimesTwice(facing, -p, k * k, -r);
  }

  lemma PushIsQuadratic(cpMax: real, f: Flow, g: Flow, facet: Facet, k: real)
    requires k > 0.0 && g.dynamicPressure == f.dynamicPressure
    requires facet.normal.Dot(g.upstream) == k * facet.normal.Dot(f.upstream)
    ensures PressurePush(cpMax, g, facet) == (k * k) * PressurePush(cpMax, f, facet)
  {
    hide Vector3.Dot;
    var c := facet.normal.Dot(f.upstream);
    SameSide(k, c);
    QuadraticPush(cpMax, Abs(c), Abs(facet.normal.Dot(g.upstream)), f.dynamicPressure, facet.area, k);
  }

  lemma Negated(k: real, p: real, r: real)
    requires r == k * p
    ensures -r == k * -p
  {
  }

  lemma SameSide(k: real, c: real)
    requires k > 0.0
    ensures (k * c >= 0.0 <==> c >= 0.0) && Abs(k * c) == k * Abs(c)
  {
    if c >= 0.0 {
      NonNegativeProduct(k, c);
    } else {
      PositiveProduct(k, -c);
    }
  }

  lemma QuadraticPush(cpMax: real, i: real, j: real, q: real, area: real, k: real)
    requires j == k * i
    ensures cpMax * j * j * q * area == (k * k) * (cpMax * i * i * q * area)
  {
  }

  lemma TimesTwice(v: Vector3, a: real, b: real, p: real)
    requires p == b * a
    ensures v.Times(a).Times(b) == v.Times(p)
  {
  }

  // ---------------------------------------------------------------- friction

  lemma FrictionAlongTangent(norm: Vector3 -> real, friction: Friction, f: Flow, minX: real, facet: Facet)
    requires Euclidean(norm) && ProperFriction(friction) && norm(Tangent(f, facet.normal)) > 0.0
    ensures var force, push := FrictionForce(norm, friction, f, minX, facet), FrictionPush(friction, f, minX, facet);
            var t := Tangent(f, facet.normal);
            force.Dot(force) == push * push && force.Times(norm(t)) == t.Times(-push)
  {
    hide Vector3.Dot, Vector3.Times, Tangent, FrictionPush, PushPerLength;
    var t, push := Tangent(f, facet.normal), FrictionPush(friction, f, minX, facet);
    var length := norm(t);
    assert IsNorm(length, t);
    var k := PushPerLength(push, length);
    PerLength(push, length);
    TimesDot(t, k, t.Times(k));
    DotFlip(t, t.Times(k));
    TimesDot(t, k, t);
    SquareBack(push, length, k);
    TimesTwice(t, k, length, -push);
  }

  /** Friction acts in the plane of the panel, against the stream's part along it, with magnitude q cf A. */
  lemma FrictionInPlane(norm: Vector3 -> real, friction: Friction, f: Flow, minX: real, facet: Facet, push: real)
    requires Euclidean(norm) && ProperFlow(f) && ProperFriction(friction) && facet.normal.Dot(facet.normal) == 1.0
    requires var cf := friction.correlation(f.mach, LocalReynolds(friction, f, minX, facet));
             push == f.dynamicPressure * cf * facet.area
    ensures var force, t := FrictionForce(norm, friction, f, minX, facet), Tangent(f, facet.normal);
            && force.Dot(facet.normal) == 0.0
            && (norm(t) > 0.0 ==> force.Dot(force) == push * push && force.Times(norm(t)) == t.Times(-push))
  {
    hide Vector3.Dot, Vector3.Times, Tangent, LocalReynolds, PushPerLength;
    assert push == FrictionPush(friction, f, minX, facet);
    var n, t := facet.normal, Tangent(f, facet.normal);
    TangentInPlane(f, n);
    ZeroVector(n);
    if norm(t) > 0.0 {
      FrictionAlongTangent(norm, friction, f, minX, facet);
      TimesDot(t, PushPerLength(FrictionPush(friction, f, minX, facet), norm(t)), n);
    }
  }

  lemma PerLength(push: real, length: real)
    requires length > 0.0
    ensures length * PushPerLength(push, length) == -push
  {
    var k := 1.0 / length;
    assert length * k == 1.0;
    assert length * (-push * k) == -push * (length * k);
  }

  lemma SquareBack(push: real, length: real, k: real)
    requires length * k == -push
    ensures k * (k * (length * length)) == push * push
  {
    assert k * (k * (length * length)) == (length * k) * (length * k);
  }

  lemma ZeroVector(n: Vector3)
    ensures ZERO.Dot(n) == 0.0
  {
  }

  lemma TangentInPlane(f: Flow, n: Vector3)
    requires n.Dot(n) == 1.0
    ensures Tangent(f, n).Dot(n) == 0.0
  {
    hide Vector3.Dot, Vector3.Times, Vector3.Minus;
    var c := n.Dot(f.upstream);
    MinusDot(f.upstream, n.Times(c), n);
    TimesDot(n, c, n);
    DotFlip(f.upstream, n);
  }

  /** The smallest axial coordinate is attained, and no vertex is below it. */
  lemma {:induction false} MinXMeaning(vertices: seq<Vector3>)
    requires |vertices| > 0
    ensures forall v :: v in vertices ==> MinX(vertices) <= v.x
    ensures exists v :: v in vertices && v.x == MinX(vertices)
  {
    var k := |vertices| - 1;
    assert vertices == vertices[..k] + [vertices[k]];
    assert vertices[k] in vertices;
    if k > 0 {
      MinXMeaning(vertices[..k]);
      var v :| v in vertices[..k] && v.x == MinX(vertices[..k]);
      assert v in vertices;
    }
  }

  /** The local Reynolds number is proportional to the distance from the leading edge, above its floor. */
  lemma LocalReynoldsMeaning(friction: Friction, f: Flow, minX: real, facet: Facet)
    requires ProperFriction(friction) && facet.centroid.x >= minX
    ensures var re := LocalReynolds(friction, f, minX, facet);
            && re >= 1000.0
            && (re > 1000.0 ==> re * friction.referenceLength == f.reynoldsLength * (facet.centroid.x - minX))
            && (f.reynoldsLength * (facet.centroid.x - minX) >= 1000.0 * friction.referenceLength ==>
                  re * friction.referenceLength == f.reynoldsLength * (facet.centroid.x - minX))
  {
    var p, l := f.reynoldsLength * (facet.centroid.x - minX), friction.referenceLength;
    assert Max(facet.centroid.x - minX, 0.0) == facet.centroid.x - minX;
    var q := p / l;
    assert q * l == p;
    if p >= MIN_REYNOLDS * l && q < MIN_REYNOLDS {
      PositiveProduct(MIN_REYNOLDS - q, l);
    }
  }

  // ---------------------------------------------------------------- the load of a panel of a mesh

  /** Without friction a panel's force has no component along either of its edges. */
  lemma LoadIsNormal(b: Problem, i: nat)
    requires Proper(b) && i < |b.panels.geometry.triangles| && b.panels.friction.None?
    ensures InRange(b.panels.geometry, b.panels.geometry.triangles[i])
    ensures ForceOf(b, i).Dot(EdgeB(b.panels.geometry, i)) == 0.0 == ForceOf(b, i).Dot(EdgeC(b.panels.geometry, i))
  {
    hide Vector3.Dot, FacetOf, PressureForce, EdgeB, EdgeC, IsLoaded, Euclidean, GoodTriangle;
    var m := b.panels.geometry;
    FacetNormal(b.norm, m, i);
    PressureIsNormal(b.panels.cpMax, b.flow, PanelFacet(b, i), EdgeB(m, i));
    PressureIsNormal(b.panels.cpMax, b.flow, PanelFacet(b, i), EdgeC(m, i));
    ZeroVector(EdgeB(m, i));
    ZeroVector(EdgeC(m, i));
  }

  /** Friction adds nothing along the normal. */
  lemma LoadAlongNormal(b: Problem, i: nat)
    requires Proper(b) && i < |b.panels.geometry.triangles| && IsLoaded(b, i)
    ensures var facet := PanelFacet(b, i);
            ForceOf(b, i).Dot(facet.normal) == PressureForce(b.panels.cpMax, b.flow, facet).Dot(facet.normal)
  {
    hide Vector3.Dot, Vector3.Plus, FacetOf, PressureForce, FrictionForce, IsLoaded, Euclidean, GoodTriangle;
    NormalIsUnit(b.norm, b.panels.geometry, i);
    if b.panels.friction.Some? {
      var facet, friction, minX := PanelFacet(b, i), b.panels.friction.value, MinX(b.panels.geometry.vertices);
      FrictionInPlane(b.norm, friction, b.flow, minX, facet, FrictionPush(friction, b.flow, minX, facet));
      PlusDot(PressureForce(b.panels.cpMax, b.flow, facet), FrictionForce(b.norm, friction, b.flow, minX, facet),
              facet.normal);
    }
  }

  /**
   * With shadowing but no shadow mesh, the corners decide: a triangle whose edges turn counter-clockwise as seen
   * from upstream is pushed downstream, and one that turns the other way carries nothing.
   */
  lemma FacingIsLoaded(b: Problem, i: nat)
    requires Proper(b) && i < |b.panels.geometry.triangles| && b.panels.shadowing && b.shadow.None?
    requires b.panels.cpMax > 0.0 && b.flow.dynamicPressure > 0.0
    ensures InRange(b.panels.geometry, b.panels.geometry.triangles[i])
    ensures var side := EdgeB(b.panels.geometry, i).Cross(EdgeC(b.panels.geometry, i)).Dot(b.flow.upstream);
            && (side > 0.0 ==> ForceOf(b, i).Dot(b.flow.upstream) < 0.0)
            && (side < 0.0 ==> ForceOf(b, i) == ZERO)
  {
    hide Vector3.Dot, Vector3.Cross, Vector3.Plus, EdgeB, EdgeC, PressureForce, FrictionForce, Euclidean, GoodTriangle,
         AreaVector, VertexOf, Vector3.Times;
    var m, u := b.panels.geometry, b.flow.upstream;
    FacetArea(b.norm, m, i);
    NormalIsUnit(b.norm, m, i);
    AreaFromEdges(m, i);
    var facet, v := PanelFacet(b, i), AreaVector(m, m.triangles[i]);
    var length := b.norm(v);
    TimesDot(v, 1.0 / length, u);
    SideOfNormal(length, v.Dot(u));
    if v.Dot(u) > 0.0 {
      PushedDownstream(b.panels.cpMax, b.flow, facet);
      if b.panels.friction.Some? {
        FrictionIsDrag(b.norm, b.panels.friction.value, b.flow, MinX(m.vertices), facet);
        PlusDot(PressureForce(b.panels.cpMax, b.flow, facet),
                FrictionForce(b.norm, b.panels.friction.value, b.flow, MinX(m.vertices), facet), u);
      }
    }
  }

  lemma SideOfNormal(length: real, c: real)
    requires length > 0.0
    ensures (c > 0.0 ==> (1.0 / length) * c > 0.0) && (c < 0.0 ==> (1.0 / length) * c < 0.0)
  {
    var k := 1.0 / length;
    assert k * length == 1.0;
    if c > 0.0 {
      PositiveProduct(k, c);
    } else if c < 0.0 {
      PositiveProduct(k, -c);
    }
  }

  lemma PushedDownstream(cpMax: real, f: Flow, facet: Facet)
    requires cpMax > 0.0 && f.dynamicPressure > 0.0 && facet.area > 0.0 && facet.normal.Dot(f.upstream) > 0.0
    ensures PressureForce(cpMax, f, facet).Dot(f.upstream) < 0.0
  {
    hide Vector3.Dot, Vector3.Times;
    var c := facet.normal.Dot(f.upstream);
    PositiveProduct(cpMax, c);
    PositiveProduct(cpMax * c, c);
    PositiveProduct(cpMax * c * c, f.dynamicPressure);
    PositiveProduct(cpMax * c * c * f.dynamicPressure, facet.area);
    var push := PressurePush(cpMax, f, facet);
    TimesDot(facet.normal, -push, f.upstream);
    PositiveProduct(push, c);
  }

  // ---------------------------------------------------------------- shadowing

  /** A triangle of the mesh, not nearly parallel to the direction, contains the point at distance `x` from `p`. */
  ghost predicate Blocks(m: Mesh, t: nat, p: Vector3, d: Vector3, x: real)
    requires t < |m.triangles| && InRange(m, m.triangles[t])
  {
    var a, b, c := VertexOf(m, t, 0), VertexOf(m, t, 1), VertexOf(m, t, 2);
    && Abs(b.Minus(a).Dot(d.Cross(c.Minus(a)))) > TINY
    && exists u: real, v: real :: MeetsAt(a, b, c, p, d, u, v, x) && u >= 0.0 && v >= 0.0 && u + v <= 1.0
  }

  lemma Displaced(a: Vector3, b: Vector3, c: Vector3, p: Vector3, d: Vector3, u: real, v: real, x: real, step: real)
    ensures MeetsAt(a, b, c, p.Plus(d.Times(step)), d, u, v, x) <==> MeetsAt(a, b, c, p, d, u, v, x + step)
  {
    Distances(d.x, x, step);
    Distances(d.y, x, step);
    Distances(d.z, x, step);
  }

  lemma Distances(d: real, x: real, step: real)
    ensures (x + step) * d == x * d + step * d
  {
  }

  lemma BlockedTriangle(m: Mesh, t: nat, p: Vector3, d: Vector3, step: real)
    requires t < |m.triangles| && InRange(m, m.triangles[t])
    ensures RayIntersectsMeshTriangle(m, t, p.Plus(d.Times(step)), d) <==>
            exists x: real :: x > TINY + step && Blocks(m, t, p, d, x)
  {
    hide Vector3.Dot, Vector3.Cross, Vector3.Plus, Vector3.Times, VertexOf, RayIntersectsTriangle, MeetsAt, Abs;
    var a, b, c, o := VertexOf(m, t, 0), VertexOf(m, t, 1), VertexOf(m, t, 2), p.Plus(d.Times(step));
    TriangleTestMeaning(a, b, c, o, d);
    if RayIntersectsMeshTriangle(m, t, o, d) {
      var u: real, v: real, x: real :|
        MeetsAt(a, b, c, o, d, u, v, x) && u >= 0.0 && v >= 0.0 && u + v <= 1.0 && x > TINY;
      Displaced(a, b, c, p, d, u, v, x, step);
      assert Blocks(m, t, p, d, x + step);
    }
    if x: real :| x > TINY + step && Blocks(m, t, p, d, x) {
      var u: real, v: real :| MeetsAt(a, b, c, p, d, u, v, x) && u >= 0.0 && v >= 0.0 && u + v <= 1.0;
      Displaced(a, b, c, p, d, u, v, x - step, step);
      assert MeetsAt(a, b, c, o, d, u, v, x - step);
    }
  }

  /**
   * With a shadow mesh and a stream direction without tiny components, a panel that faces upstream is left out
   * exactly when a triangle of that mesh lies upstream of its centroid, more than 1e-9 (and the query's tolerance)
   * away.
   */
  lemma ShadowMeaning(b: Problem, i: nat)
    requires Proper(b) && i < |b.panels.geometry.triangles| && b.panels.shadowing && b.shadow.Some?
    requires RegularDirection(b.flow.upstream) && PanelFacet(b, i).normal.Dot(b.flow.upstream) >= 0.0
    ensures !IsLoaded(b, i) <==>
            exists t: nat, x: real ::
              t < |b.shadow.value.triangles| && InRange(b.shadow.value, b.shadow.value.triangles[t])
              && x > 0.000000001 + TINY
              && Blocks(b.shadow.value, t, PanelFacet(b, i).centroid, b.flow.upstream, x)
  {
    hide Query, FacetOf, Vector3.Dot, Vector3.Plus, Vector3.Times, Blocks, RayIntersectsMeshTriangle, RegularDirection,
         Euclidean;
    var m, p, d := b.shadow.value, PanelFacet(b, i).centroid, b.flow.upstream;
    QueryMeaning(m, p.Plus(d.Times(0.000000001)), d);
    forall t: nat | t < |m.triangles| && InRange(m, m.triangles[t])
      ensures RayIntersectsMeshTriangle(m, t, p.Plus(d.Times(0.000000001)), d) <==>
              exists x: real :: x > TINY + 0.000000001 && Blocks(m, t, p, d, x)
    {
      BlockedTriangle(m, t, p, d, 0.000000001);
    }
    assert forall t: nat :: t < |m.triangles| ==> GoodTriangle(m, m.triangles[t]);
  }
}
