/** Triangulated panel meshes: construction checks and the watertight two-manifold test. */
module PanelMesh {
  import opened Wrappers
  import opened Sorting

  datatype Vector3 = Vector3(x: real, y: real, z: real) {
    function Plus(o: Vector3): Vector3 { Vector3(x + o.x, y + o.y, z + o.z) }

    function Minus(o: Vector3): Vector3 { Vector3(x - o.x, y - o.y, z - o.z) }

    function Times(k: real): Vector3 { Vector3(k * x, k * y, k * z) }

    function Dot(o: Vector3): real { x * o.x + y * o.y + z * o.z }

    function Cross(o: Vector3): Vector3 {
      Vector3(y * o.z - z * o.y, z * o.x - x * o.z, x * o.y - y * o.x)
    }
  }

  datatype Triangle = Triangle(a: nat, b: nat, c: nat)

  datatype Mesh = Mesh(vertices: seq<Vector3>, triangles: seq<Triangle>)

  datatype MeshError = NoVertices | NoTriangles | IndexOutOfRange | RepeatedVertices | ZeroArea | NotWatertight

  predicate InRange(m: Mesh, t: Triangle) {
    t.a < |m.vertices| && t.b < |m.vertices| && t.c < |m.vertices|
  }

  predicate Distinct(t: Triangle) {
    t.a != t.b && t.b != t.c && t.a != t.c
  }

  function AreaVector(m: Mesh, t: Triangle): Vector3
    requires InRange(m, t)
  {
    var (a, b, c) := (m.vertices[t.a], m.vertices[t.b], m.vertices[t.c]);
    b.Minus(a).Cross(c.Minus(a))
  }

  predicate GoodTriangle(m: Mesh, t: Triangle) {
    InRange(m, t) && Distinct(t) && AreaVector(m, t) != Vector3(0.0, 0.0, 0.0)
  }

  /** What the constructor guarantees of a mesh. */
  ghost predicate ValidMesh(m: Mesh) {
    |m.vertices| > 0 && |m.triangles| > 0
    && forall i :: 0 <= i < |m.triangles| ==> GoodTriangle(m, m.triangles[i])
  }

  /** Why a triangle is refused: its indices, then repeated corners, then its area. */
  function TriangleFault(m: Mesh, t: Triangle): Option<MeshError> {
    if !InRange(m, t) then Some(IndexOutOfRange)
    else if !Distinct(t) then Some(RepeatedVertices)
    else if AreaVector(m, t) == Vector3(0.0, 0.0, 0.0) then Some(ZeroArea)
    else None
  }

  /** The fault of the first triangle that has one. */
  ghost predicate FirstFault(m: Mesh, error: MeshError) {
    exists i: nat :: i < |m.triangles| && TriangleFault(m, m.triangles[i]) == Some(error)
                     && forall j :: 0 <= j < i ==> GoodTriangle(m, m.triangles[j])
  }

  /** The checked constructor accepts exactly the valid meshes and returns them unchanged. */
  method NewMesh(vertices: seq<Vector3>, triangles: seq<Triangle>) returns (r: Result<Mesh, MeshError>)
    ensures r.Ok? <==> ValidMesh(Mesh(vertices, triangles))
    ensures r.Ok? ==> r.value == Mesh(vertices, triangles)
    ensures r.Err? ==> if |vertices| == 0 then r.error == NoVertices
                       else if |triangles| == 0 then r.error == NoTriangles
                       else FirstFault(Mesh(vertices, triangles), r.error)
  {
    var m := Mesh(vertices, triangles);
    if |vertices| == 0 {
      return Err(NoVertices);
    }
    if |triangles| == 0 {
      return Err(NoTriangles);
    }
    for i := 0 to |triangles|
      invariant forall j :: 0 <= j < i ==> GoodTriangle(m, triangles[j])
    {
      var t := triangles[i];
      assert TriangleFault(m, m.triangles[i]).Some? ==> FirstFault(m, TriangleFault(m, m.triangles[i]).value);
      if t.a >= |vertices| || t.b >= |vertices| || t.c >= |vertices| {
        return Err(IndexOutOfRange);
      }
      if t.a == t.b || t.b == t.c || t.a == t.c {
        return Err(RepeatedVertices);
      }
      var area := AreaVector(m, t);
      if area == Vector3(0.0, 0.0, 0.0) {
        return Err(ZeroArea);
      }
    }
    return Ok(m);
  }

  // ---------------------------------------------------------------- edges

  type Edge = (nat, nat)

  function CanonicalEdge(a: nat, b: nat): Edge {
    if a <= b then (a, b) else (b, a)
  }

  predicate EdgeLeq(e: Edge, f: Edge) {
    e.0 < f.0 || (e.0 == f.0 && e.1 <= f.1)
  }

  function TriangleEdges(t: Triangle): (r: seq<Edge>)
    ensures |r| == 3
  {
    [CanonicalEdge(t.a, t.b), CanonicalEdge(t.b, t.c), CanonicalEdge(t.c, t.a)]
  }

  function EdgeList(ts: seq<Triangle>): (r: seq<Edge>)
    ensures |r| == 3 * |ts|
  {
    if |ts| == 0 then [] else EdgeList(ts[..|ts| - 1]) + TriangleEdges(ts[|ts| - 1])
  }

  /** The triangles, by number, that have the undirected edge `e`. */
  ghost function Incident(ts: seq<Triangle>, e: Edge): set<nat> {
    set i: nat | i < |ts| && e in TriangleEdges(ts[i])
  }

  ghost function Edges(ts: seq<Triangle>): set<Edge> {
    set e | e in EdgeList(ts)
  }

  /** Every undirected edge of the mesh lies on exactly two distinct triangles. */
  ghost predicate Watertight(ts: seq<Triangle>) {
    forall e :: e in Edges(ts) ==> |Incident(ts, e)| == 2
  }

  lemma {:induction false} MultiplicityIsIncidence(ts: seq<Triangle>, e: Edge)
    requires forall i :: 0 <= i < |ts| ==> Distinct(ts[i])
    ensures multiset(EdgeList(ts))[e] == |Incident(ts, e)|
  {
    hide TriangleEdges, CanonicalEdge;
    if |ts| == 0 {
      assert Incident(ts, e) == {};
    } else {
      var k := |ts| - 1;
      var before := ts[..k];
      MultiplicityIsIncidence(before, e);
      TriangleEdgesDiffer(ts[k], e);
      assert multiset(EdgeList(ts))[e] == multiset(EdgeList(before))[e] + multiset(TriangleEdges(ts[k]))[e];
      IncidentGrows(ts, e);
    }
  }

  lemma IncidentGrows(ts: seq<Triangle>, e: Edge)
    requires |ts| > 0
    ensures |Incident(ts, e)| == |Incident(ts[..|ts| - 1], e)| + if e in TriangleEdges(ts[|ts| - 1]) then 1 else 0
  {
    hide TriangleEdges;
    var k := |ts| - 1;
    var before := Incident(ts[..k], e);
    if e in TriangleEdges(ts[k]) {
      assert Incident(ts, e) == before + {k};
    } else {
      assert Incident(ts, e) == before;
    }
  }

  lemma TriangleEdgesDiffer(t: Triangle, e: Edge)
    requires Distinct(t)
    ensures multiset(TriangleEdges(t))[e] == if e in TriangleEdges(t) then 1 else 0
  {
    var s := TriangleEdges(t);
    assert s[0] != s[1] && s[1] != s[2] && s[0] != s[2];
    assert multiset(s) == multiset{s[0], s[1], s[2]};
  }

  // ---------------------------------------------------------------- counting runs

  /** Every edge occurs exactly twice. */
  ghost predicate AllTwice(m: multiset<Edge>) {
    forall e :: e in m ==> m[e] == 2
  }

  lemma EdgeOrder()
    ensures TotalOrder(EdgeLeq)
  {
  }

  /** In a sorted list an edge that a run has left behind does not come back. */
  lemma RunIsComplete(s: seq<Edge>, from: nat, to: nat)
    requires Sorted(s, EdgeLeq) && from < to <= |s|
    requires forall i :: from <= i < to ==> s[i] == s[from]
    requires from > 0 ==> s[from - 1] != s[from]
    requires to < |s| ==> s[to] != s[from]
    ensures s[from] !in s[..from] && s[from] !in s[to..]
    ensures multiset(s)[s[from]] == to - from
  {
    hide Sorted, EdgeLeq;
    forall i | 0 <= i < |s| && !(from <= i < to)
      ensures s[i] != s[from]
    {
      OutsideRun(s, from, to, i);
    }
    RunCount(s, from, to, s[from]);
  }

  lemma RunCount(s: seq<Edge>, from: nat, to: nat, e: Edge)
    requires from <= to <= |s|
    requires forall i :: from <= i < to ==> s[i] == e
    requires e !in s[..from] && e !in s[to..]
    ensures multiset(s)[e] == to - from
  {
    var a, b, c := s[..from], s[from..to], s[to..];
    assert s == a + b + c;
    ConstantRun(b, e);
    assert multiset(a)[e] == 0 && multiset(c)[e] == 0;
  }

  lemma OutsideRun(s: seq<Edge>, from: nat, to: nat, i: nat)
    requires Sorted(s, EdgeLeq) && from < to <= |s| && i < |s| && (i < from || to <= i)
    requires from > 0 ==> s[from - 1] != s[from]
    requires to < |s| ==> s[to] != s[from]
    ensures s[i] != s[from]
  {
    if i < from {
      assert EdgeLeq(s[from - 1], s[from]);
      assert i < from - 1 ==> EdgeLeq(s[i], s[from - 1]);
    } else {
      assert EdgeLeq(s[from], s[to]);
      assert to < i ==> EdgeLeq(s[to], s[i]);
    }
  }

  lemma {:induction false} ConstantRun(s: seq<Edge>, e: Edge)
    requires forall i :: 0 <= i < |s| ==> s[i] == e
    ensures multiset(s)[e] == |s|
  {
    if |s| > 0 {
      assert s == s[..|s| - 1] + [s[|s| - 1]];
      ConstantRun(s[..|s| - 1], e);
    }
  }

  /** Walks the sorted edge list run by run and stops at a run whose length is not two. */
  method RunsAreTwo(s: seq<Edge>) returns (ok: bool)
    requires Sorted(s, EdgeLeq)
    ensures ok <==> AllTwice(multiset(s))
  {
    var index := 0;
    while index < |s|
      invariant 0 <= index <= |s|
      invariant 0 < index < |s| ==> s[index - 1] != s[index]
      invariant forall i :: 0 <= i < index ==> multiset(s)[s[i]] == 2
    {
      var edge := s[index];
      ghost var from := index;
      var count := 1;
      index := index + 1;
      while index < |s| && s[index] == edge
        invariant from < index <= |s| && count == index - from
        invariant forall i :: from <= i < index ==> s[i] == edge
      {
        count := count + 1;
        index := index + 1;
      }
      RunIsComplete(s, from, index);
      if count != 2 {
        assert edge in multiset(s);
        return false;
      }
    }
    return true;
  }

  method CollectEdges(ts: seq<Triangle>) returns (edges: seq<Edge>)
    ensures edges == EdgeList(ts)
  {
    edges := [];
    for i := 0 to |ts|
      invariant edges == EdgeList(ts[..i])
    {
      var t := ts[i];
      assert ts[..i + 1][..i] == ts[..i];
      edges := edges + [CanonicalEdge(t.a, t.b)];
      edges := edges + [CanonicalEdge(t.b, t.c)];
      edges := edges + [CanonicalEdge(t.c, t.a)];
      assert edges == EdgeList(ts[..i]) + TriangleEdges(t);
    }
    assert ts[..|ts|] == ts;
  }

  /**
   * Sorting the edges and counting runs accepts a mesh exactly when every undirected edge lies on two
   * distinct triangles; the number of edges is then one and a half times the number of triangles.
   */
  method ValidateWatertightManifold(m: Mesh) returns (r: Result<(), MeshError>)
    requires ValidMesh(m)
    ensures r.Ok? <==> Watertight(m.triangles)
    ensures r.Ok? ==> 3 * |m.triangles| == 2 * |Edges(m.triangles)|
  {
    var edges := CollectEdges(m.triangles);
    var sorted := Sort(edges, EdgeLeq);
    EdgeOrder();
    SortSorted(edges, EdgeLeq);
    var ok := RunsAreTwo(sorted);
    TwiceIsWatertight(m.triangles);
    if ok {
      TwiceCounts(multiset(edges), Edges(m.triangles));
      return Ok(());
    }
    return Err(NotWatertight);
  }

  lemma TwiceIsWatertight(ts: seq<Triangle>)
    requires forall i :: 0 <= i < |ts| ==> Distinct(ts[i])
    ensures AllTwice(multiset(EdgeList(ts))) <==> Watertight(ts)
  {
    forall e | e in multiset(EdgeList(ts))
      ensures e in Edges(ts) && multiset(EdgeList(ts))[e] == |Incident(ts, e)|
    {
      MultiplicityIsIncidence(ts, e);
    }
    assert forall e :: e in Edges(ts) ==> e in multiset(EdgeList(ts));
  }

  /** Handshake: if each member occurs twice, there are twice as many occurrences as members. */
  lemma {:induction false} TwiceCounts(m: multiset<Edge>, support: set<Edge>)
    requires AllTwice(m) && forall e :: e in support <==> e in m
    ensures |m| == 2 * |support|
    decreases |support|
  {
    if support != {} {
      var e :| e in support;
      var rest := m[e := 0];
      assert m == rest + multiset{e, e};
      TwiceCounts(rest, support - {e});
    } else {
      assert m == multiset{};
    }
  }
}
