/**
 * The median-split bounding-volume tree over a mesh, built by pushing into two shared lists.
 * `Build` is the tree as a value, at the offsets where it will be stored; the class's builder is
 * proved to append exactly that, and the structural properties are proved of the value.
 */
module PanelBvh {
  import opened Wrappers
  import opened Reals
  import opened Sorting
  import opened PanelMesh

  datatype Aabb = Aabb(min: Vector3, max: Vector3)

  datatype Node = Node(aabb: Aabb, left: Option<nat>, right: Option<nat>, first: nat, count: nat)

  const LEAF_TRIANGLES := 4

  ghost predicate ValidIndices(m: Mesh, indices: seq<nat>) {
    && (forall i :: 0 <= i < |m.triangles| ==> InRange(m, m.triangles[i]))
    && (forall k :: 0 <= k < |indices| ==> indices[k] < |m.triangles|)
  }

  // ---------------------------------------------------------------- bounding boxes

  predicate InBox(v: Vector3, b: Aabb) {
    b.min.x <= v.x <= b.max.x && b.min.y <= v.y <= b.max.y && b.min.z <= v.z <= b.max.z
  }

  /** `None` is the empty box, whose bounds are the infinities. */
  function Grow(b: Option<Aabb>, v: Vector3): (r: Aabb)
    ensures InBox(v, r)
    ensures b.Some? ==> forall p :: InBox(p, b.value) ==> InBox(p, r)
    ensures forall big :: InBox(v, big) && (b.Some? ==> Inside(b.value, big)) ==> Inside(r, big)
  {
    match b
    case None => Aabb(v, v)
    case Some(b) =>
      Aabb(Vector3(Min(b.min.x, v.x), Min(b.min.y, v.y), Min(b.min.z, v.z)),
           Vector3(Max(b.max.x, v.x), Max(b.max.y, v.y), Max(b.max.z, v.z)))
  }

  predicate Inside(b: Aabb, big: Aabb) {
    InBox(b.min, big) && InBox(b.max, big)
  }

  function VertexOf(m: Mesh, t: nat, k: nat): Vector3
    requires t < |m.triangles| && InRange(m, m.triangles[t]) && k < 3
  {
    var tri := m.triangles[t];
    m.vertices[if k == 0 then tri.a else if k == 1 then tri.b else tri.c]
  }

  predicate TriangleInBox(m: Mesh, t: nat, b: Aabb)
    requires t < |m.triangles| && InRange(m, m.triangles[t])
  {
    InBox(VertexOf(m, t, 0), b) && InBox(VertexOf(m, t, 1), b) && InBox(VertexOf(m, t, 2), b)
  }

  function GrowTriangle(b: Option<Aabb>, m: Mesh, t: nat): (r: Aabb)
    requires t < |m.triangles| && InRange(m, m.triangles[t])
    ensures TriangleInBox(m, t, r)
    ensures b.Some? ==> forall p :: InBox(p, b.value) ==> InBox(p, r)
    ensures forall big :: TriangleInBox(m, t, big) && (b.Some? ==> Inside(b.value, big)) ==> Inside(r, big)
  {
    Grow(Some(Grow(Some(Grow(b, VertexOf(m, t, 0))), VertexOf(m, t, 1))), VertexOf(m, t, 2))
  }

  /** The smallest box holding the triangles, grown vertex by vertex from the empty one. */
  function BoxOf(m: Mesh, indices: seq<nat>): (r: Option<Aabb>)
    requires ValidIndices(m, indices)
    ensures r.Some? <==> |indices| > 0
  {
    if |indices| == 0 then None
    else
      Some(GrowTriangle(BoxOf(m, indices[..|indices| - 1]), m, indices[|indices| - 1]))
  }

  /** The box holds every vertex of its triangles and lies inside any other box that does. */
  lemma {:induction false} BoxIsHull(m: Mesh, indices: seq<nat>, big: Aabb)
    requires ValidIndices(m, indices) && |indices| > 0
    ensures forall t :: t in indices ==> TriangleInBox(m, t, BoxOf(m, indices).value)
    ensures (forall t :: t in indices ==> TriangleInBox(m, t, big)) ==> Inside(BoxOf(m, indices).value, big)
  {
    hide InBox, TriangleInBox, Inside, Grow, GrowTriangle;
    var k := |indices| - 1;
    var before := indices[..k];
    assert indices == before + [indices[k]];
    if k > 0 {
      BoxIsHull(m, before, big);
      var small, r := BoxOf(m, before).value, BoxOf(m, indices).value;
      forall t | t in before
        ensures TriangleInBox(m, t, r)
      {
        TriangleStays(m, t, small, r);
      }
    }
  }

  lemma TriangleStays(m: Mesh, t: nat, small: Aabb, r: Aabb)
    requires t < |m.triangles| && InRange(m, m.triangles[t]) && TriangleInBox(m, t, small)
    requires forall p :: InBox(p, small) ==> InBox(p, r)
    ensures TriangleInBox(m, t, r)
  {
    hide InBox;
  }

  method AabbForTriangles(m: Mesh, indices: seq<nat>) returns (r: Option<Aabb>)
    requires ValidIndices(m, indices)
    ensures r == BoxOf(m, indices)
  {
    hide Grow, InBox;
    r := None;
    for i := 0 to |indices|
      invariant ValidIndices(m, indices[..i]) && r == BoxOf(m, indices[..i])
    {
      var t := indices[i];
      assert indices[..i + 1][..i] == indices[..i];
      var box := r;
      var tri := m.triangles[t];
      box := Some(Grow(box, m.vertices[tri.a]));
      box := Some(Grow(box, m.vertices[tri.b]));
      box := Some(Grow(box, m.vertices[tri.c]));
      r := box;
    }
    assert indices[..|indices|] == indices;
  }

  // ---------------------------------------------------------------- the split

  function Extent(b: Aabb, axis: nat): real {
    Component(b.max, axis) - Component(b.min, axis)
  }

  /** The axis of largest extent; the first one among equals. */
  function LongestAxis(b: Aabb): (axis: nat)
    ensures axis < 3 && forall k: nat :: k < 3 ==> Extent(b, k) <= Extent(b, axis)
    ensures forall k: nat :: k < axis ==> Extent(b, k) < Extent(b, axis)
  {
    var d := b.max.Minus(b.min);
    if d.x >= d.y && d.x >= d.z then 0 else if d.y >= d.z then 1 else 2
  }

  function Component(v: Vector3, axis: nat): real {
    if axis == 0 then v.x else if axis == 1 then v.y else v.z
  }

  /** Centroid coordinate that orders the triangles (zero for a number that names no triangle). */
  function CentroidAxis(m: Mesh, t: nat, axis: nat): real {
    if t < |m.triangles| && InRange(m, m.triangles[t]) then
      Component(VertexOf(m, t, 0).Plus(VertexOf(m, t, 1)).Plus(VertexOf(m, t, 2)), axis) / 3.0
    else 0.0
  }

  /** By centroid coordinate, ties by triangle number. */
  function ByCentroid(m: Mesh, axis: nat): (nat, nat) -> bool {
    (l: nat, r: nat) =>
      CentroidAxis(m, l, axis) < CentroidAxis(m, r, axis)
      || (CentroidAxis(m, l, axis) == CentroidAxis(m, r, axis) && l <= r)
  }

  // ---------------------------------------------------------------- building

  datatype Built = Built(nodes: seq<Node>, order: seq<nat>)

  lemma PermutationIsValid(m: Mesh, indices: seq<nat>, s: seq<nat>)
    requires ValidIndices(m, indices) && multiset(s) == multiset(indices)
    ensures ValidIndices(m, s)
  {
    forall k | 0 <= k < |s|
      ensures s[k] < |m.triangles|
    {
      assert s[k] in multiset(s);
      assert s[k] in indices;
    }
  }

  function Halves(m: Mesh, indices: seq<nat>): (r: (seq<nat>, seq<nat>))
    requires ValidIndices(m, indices) && |indices| > LEAF_TRIANGLES
    ensures |r.0| == |indices| / 2 && |r.1| == |indices| - |indices| / 2
    ensures multiset(r.0) + multiset(r.1) == multiset(indices)
    ensures ValidIndices(m, r.0) && ValidIndices(m, r.1)
  {
    var s := Sort(indices, ByCentroid(m, LongestAxis(BoxOf(m, indices).value)));
    var half := |indices| / 2;
    assert s == s[..half] + s[half..];
    PermutationIsValid(m, indices, s);
    (s[..half], s[half..])
  }

  lemma CentroidOrder(m: Mesh, axis: nat)
    ensures TotalOrder(ByCentroid(m, axis))
  {
  }

  /** The split is at the median of the centroids along the longest axis of the box. */
  lemma HalvesAreOrdered(m: Mesh, indices: seq<nat>, l: nat, r: nat)
    requires ValidIndices(m, indices) && |indices| > LEAF_TRIANGLES
    requires l in Halves(m, indices).0 && r in Halves(m, indices).1
    ensures var axis := LongestAxis(BoxOf(m, indices).value); CentroidAxis(m, l, axis) <= CentroidAxis(m, r, axis)
  {
    hide Sort, BoxOf, CentroidAxis, LongestAxis;
    var leq := ByCentroid(m, LongestAxis(BoxOf(m, indices).value));
    CentroidOrder(m, LongestAxis(BoxOf(m, indices).value));
    SortSorted(indices, leq);
    var s, half := Sort(indices, leq), |indices| / 2;
    var i :| 0 <= i < half && s[i] == l;
    var j :| half <= j < |s| && s[j] == r;
    assert leq(s[i], s[j]);
  }

  /** The nodes and slots added for `indices` when `n` nodes and `s` slots are already there. */
  function Build(m: Mesh, indices: seq<nat>, n: nat, s: nat): (r: Built)
    requires ValidIndices(m, indices) && |indices| > 0
    ensures |r.nodes| > 0 && |r.order| == |indices|
    decreases |indices|
  {
    var box := BoxOf(m, indices).value;
    if |indices| <= LEAF_TRIANGLES then
      Built([Node(box, None, None, s, |indices|)], indices)
    else
      var (l, r) := Halves(m, indices);
      var left := Build(m, l, n + 1, s);
      var right := Build(m, r, n + 1 + |left.nodes|, s + |l|);
      Built([Node(box, Some(n + 1), Some(n + 1 + |left.nodes|), 0, 0)] + left.nodes + right.nodes,
            left.order + right.order)
  }

  ghost function All(m: Mesh): seq<nat> {
    seq(|m.triangles|, i => i)
  }

  lemma JoinLists<T>(a: seq<T>, x: T, y: T, l: seq<T>, r: seq<T>)
    ensures (((a + [x]) + l) + r)[|a| := y] == a + ([y] + l + r)
  {
  }

  lemma AddAssociates<T>(a: seq<T>, b: seq<T>, c: seq<T>)
    ensures (a + b) + c == a + (b + c)
  {
  }

  lemma LeafBuild(m: Mesh, indices: seq<nat>, n: nat, s: nat)
    requires ValidIndices(m, indices) && 0 < |indices| <= LEAF_TRIANGLES
    ensures Build(m, indices, n, s) == Built([Node(BoxOf(m, indices).value, None, None, s, |indices|)], indices)
  {
  }

  class PanelMeshBvh {
    const mesh: Mesh
    var nodes: seq<Node>
    var triangleOrder: seq<nat>

    ghost predicate Valid()
      reads this
    {
      && ValidMesh(mesh) && Watertight(mesh.triangles)
      && ValidIndices(mesh, All(mesh))
      && nodes == Build(mesh, All(mesh), 0, 0).nodes
      && triangleOrder == Build(mesh, All(mesh), 0, 0).order
    }

    constructor (m: Mesh)
      ensures mesh == m && nodes == [] && triangleOrder == []
    {
      mesh := m;
      nodes := [];
      triangleOrder := [];
    }

    /** Pushes the subtree for `indices` and returns the number of its root node. */
    method BuildNode(indices: seq<nat>) returns (index: nat)
      requires ValidIndices(mesh, indices) && |indices| > 0
      modifies this
      ensures index == |old(nodes)|
      ensures nodes == old(nodes) + Build(mesh, indices, |old(nodes)|, |old(triangleOrder)|).nodes
      ensures triangleOrder == old(triangleOrder) + Build(mesh, indices, |old(nodes)|, |old(triangleOrder)|).order
      decreases |indices|
    {
      hide Halves, BoxOf, ValidIndices, PanelMeshBvh.Valid, Build;
      var box := AabbForTriangles(mesh, indices);
      index := |nodes|;
      nodes := nodes + [Node(box.value, None, None, 0, 0)];
      if |indices| <= LEAF_TRIANGLES {
        var first := |triangleOrder|;
        triangleOrder := triangleOrder + indices;
        nodes := nodes[index := nodes[index].(first := first, count := |indices|)];
        LeafBuild(mesh, indices, |old(nodes)|, |old(triangleOrder)|);
        return;
      }
      ghost var n, s := |old(nodes)|, |old(triangleOrder)|;
      ghost var leftBuilt, rightBuilt := LeftOf(mesh, indices, n, s), RightOf(mesh, indices, n, s);
      InnerBuild(mesh, indices, n, s);
      var leftIndices, rightIndices := Split(indices, box.value);
      var left := BuildNode(leftIndices);
      var right := BuildNode(rightIndices);
      nodes := nodes[index := nodes[index].(left := Some(left), right := Some(right))];
      ghost var head := Node(box.value, Some(left), Some(right), 0, 0);
      JoinLists(old(nodes), Node(box.value, None, None, 0, 0), head, leftBuilt.nodes, rightBuilt.nodes);
      AddAssociates(old(triangleOrder), leftBuilt.order, rightBuilt.order);
    }

    /** Sorts along the longest axis of the box and splits at the median. */
    method Split(indices: seq<nat>, box: Aabb) returns (l: seq<nat>, r: seq<nat>)
      requires ValidIndices(mesh, indices) && |indices| > LEAF_TRIANGLES && box == BoxOf(mesh, indices).value
      ensures (l, r) == Halves(mesh, indices)
    {
      var sorted := Sort(indices, ByCentroid(mesh, LongestAxis(box)));
      l, r := sorted[..|indices| / 2], sorted[|indices| / 2..];
    }
  }

  /** Builds the tree of a watertight mesh, or reports that the mesh is not watertight. */
  method FromWatertightMesh(m: Mesh) returns (r: Result<PanelMeshBvh, MeshError>)
    requires ValidMesh(m)
    ensures r.Ok? <==> Watertight(m.triangles)
    ensures r.Ok? ==> fresh(r.value) && r.value.Valid() && r.value.mesh == m
    ensures r.Err? ==> r.error == NotWatertight
  {
    var check := ValidateWatertightManifold(m);
    if check.Err? {
      return Err(NotWatertight);
    }
    var bvh := new PanelMeshBvh(m);
    var indices := seq(|m.triangles|, i => i);
    var root := bvh.BuildNode(indices);
    assert indices == All(m);
    assert [] + Build(m, indices, 0, 0).nodes == Build(m, indices, 0, 0).nodes;
    assert [] + Build(m, indices, 0, 0).order == Build(m, indices, 0, 0).order;
    return Ok(bvh);
  }

  // ---------------------------------------------------------------- shape of the tree

  /** Node `i` is a leaf with a range of slots, or an inner node whose children come later. */
  ghost predicate GoodNode(nodes: seq<Node>, slots: nat, i: nat)
    requires i < |nodes|
  {
    var v := nodes[i];
    if v.count > 0 then
      v.left == None && v.right == None && v.count <= 4 && v.first + v.count <= slots
    else
      v.left.Some? && v.right.Some? && i < v.left.value < v.right.value < |nodes|
  }

  ghost predicate Tree(nodes: seq<Node>, slots: nat) {
    forall i :: 0 <= i < |nodes| ==> GoodNode(nodes, slots, i)
  }

  /** The built subtree sits at its place inside the finished lists. */
  ghost predicate Placed(b: Built, nodes: seq<Node>, order: seq<nat>, n: nat, s: nat) {
    && n + |b.nodes| <= |nodes| && nodes[n..n + |b.nodes|] == b.nodes
    && s + |b.order| <= |order| && order[s..s + |b.order|] == b.order
  }

  lemma SliceOfSlice<T>(s: seq<T>, n: nat, part: seq<T>, from: nat, to: nat)
    requires n + |part| <= |s| && s[n..n + |part|] == part && from <= to <= |part|
    ensures s[n + from..n + to] == part[from..to]
  {
    forall k | 0 <= k < to - from
      ensures s[n + from..n + to][k] == part[from..to][k]
    {
      assert s[n..n + |part|][from + k] == part[from + k];
    }
  }

  lemma PlacedParts(b: Built, head: Node, l: Built, r: Built, nodes: seq<Node>, order: seq<nat>, n: nat, s: nat)
    requires b == Built([head] + l.nodes + r.nodes, l.order + r.order)
    requires Placed(b, nodes, order, n, s)
    ensures Placed(l, nodes, order, n + 1, s)
    ensures Placed(r, nodes, order, n + 1 + |l.nodes|, s + |l.order|)
    ensures nodes[n] == head
  {
    var a, z := |l.nodes|, |r.nodes|;
    assert b.nodes[1..1 + a] == l.nodes && b.nodes[1 + a..1 + a + z] == r.nodes;
    SliceOfSlice(nodes, n, b.nodes, 1, 1 + a);
    SliceOfSlice(nodes, n, b.nodes, 1 + a, 1 + a + z);
    assert b.order[0..|l.order|] == l.order && b.order[|l.order|..|l.order| + |r.order|] == r.order;
    SliceOfSlice(order, s, b.order, 0, |l.order|);
    SliceOfSlice(order, s, b.order, |l.order|, |l.order| + |r.order|);
    assert nodes[n..n + |b.nodes|][0] == head;
  }

  function LeftOf(m: Mesh, indices: seq<nat>, n: nat, s: nat): Built
    requires ValidIndices(m, indices) && |indices| > LEAF_TRIANGLES
  {
    Build(m, Halves(m, indices).0, n + 1, s)
  }

  function RightOf(m: Mesh, indices: seq<nat>, n: nat, s: nat): Built
    requires ValidIndices(m, indices) && |indices| > LEAF_TRIANGLES
  {
    Build(m, Halves(m, indices).1, n + 1 + |LeftOf(m, indices, n, s).nodes|, s + |indices| / 2)
  }

  lemma InnerBuild(m: Mesh, indices: seq<nat>, n: nat, s: nat)
    requires ValidIndices(m, indices) && |indices| > LEAF_TRIANGLES
    ensures var (l, r) := (LeftOf(m, indices, n, s), RightOf(m, indices, n, s));
            var head := Node(BoxOf(m, indices).value, Some(n + 1), Some(n + 1 + |l.nodes|), 0, 0);
            && Build(m, indices, n, s) == Built([head] + l.nodes + r.nodes, l.order + r.order)
            && |l.order| == |indices| / 2 && |l.nodes| > 0 && |r.nodes| > 0
  {
    hide Halves, BoxOf;
  }

  /** Both children of a placed inner subtree are placed, right behind their parent. */
  lemma PlacedChildren(m: Mesh, indices: seq<nat>, nodes: seq<Node>, order: seq<nat>, n: nat, s: nat)
    requires ValidIndices(m, indices) && |indices| > LEAF_TRIANGLES
    requires Placed(Build(m, indices, n, s), nodes, order, n, s)
    ensures var (l, r) := (LeftOf(m, indices, n, s), RightOf(m, indices, n, s));
            && Placed(l, nodes, order, n + 1, s)
            && Placed(r, nodes, order, n + 1 + |l.nodes|, s + |indices| / 2)
            && |l.nodes| > 0 && |r.nodes| > 0
            && |Build(m, indices, n, s).nodes| == 1 + |l.nodes| + |r.nodes|
            && nodes[n] == Node(BoxOf(m, indices).value, Some(n + 1), Some(n + 1 + |l.nodes|), 0, 0)
  {
    hide Build, LeftOf, RightOf, BoxOf, Placed;
    InnerBuild(m, indices, n, s);
    var l, r := LeftOf(m, indices, n, s), RightOf(m, indices, n, s);
    PlacedParts(Build(m, indices, n, s),
                Node(BoxOf(m, indices).value, Some(n + 1), Some(n + 1 + |l.nodes|), 0, 0), l, r, nodes, order, n, s);
  }

  lemma PlacedLeaf(m: Mesh, indices: seq<nat>, nodes: seq<Node>, order: seq<nat>, n: nat, s: nat)
    requires ValidIndices(m, indices) && 0 < |indices| <= LEAF_TRIANGLES
    requires Placed(Build(m, indices, n, s), nodes, order, n, s)
    ensures n < |nodes| && nodes[n] == Node(BoxOf(m, indices).value, None, None, s, |indices|)
    ensures s + |indices| <= |order| && order[s..s + |indices|] == indices
    ensures |Build(m, indices, n, s).nodes| == 1
  {
    hide BoxOf;
    var b := Build(m, indices, n, s);
    assert nodes[n..n + |b.nodes|][0] == b.nodes[0];
  }

  /** Slots of the leaves, in node order. */
  ghost function LeafSlots(nodes: seq<Node>): seq<nat> {
    if |nodes| == 0 then []
    else
      var v := nodes[|nodes| - 1];
      LeafSlots(nodes[..|nodes| - 1]) + Range(v.first, v.count)
  }

  ghost function Range(from: nat, n: nat): seq<nat> {
    seq(n, k requires 0 <= k < n => from + k)
  }

  lemma {:induction false} LeafSlotsConcat(a: seq<Node>, b: seq<Node>)
    ensures LeafSlots(a + b) == LeafSlots(a) + LeafSlots(b)
  {
    if |b| == 0 {
      assert a + b == a;
    } else {
      var k := |b| - 1;
      var c := a + b;
      assert c[..|c| - 1] == a + b[..k] && c[|c| - 1] == b[k];
      LeafSlotsConcat(a, b[..k]);
      var last := b[k];
      AddAssociates(LeafSlots(a), LeafSlots(b[..k]), Range(last.first, last.count));
    }
  }

  /** The triangle order is a permutation of the triangles given. */
  lemma {:induction false} OrderPermutes(m: Mesh, indices: seq<nat>, n: nat, s: nat)
    requires ValidIndices(m, indices) && |indices| > 0
    ensures multiset(Build(m, indices, n, s).order) == multiset(indices)
    decreases |indices|
  {
    hide Halves, BoxOf, ValidIndices;
    if |indices| > LEAF_TRIANGLES {
      var (l, r) := Halves(m, indices);
      var left := Build(m, l, n + 1, s);
      var right := Build(m, r, n + 1 + |left.nodes|, s + |l|);
      OrderPermutes(m, l, n + 1, s);
      OrderPermutes(m, r, n + 1 + |left.nodes|, s + |l|);
      assert Build(m, indices, n, s).order == left.order + right.order;
    }
  }

  /** The leaf ranges tile the slots: disjoint, in order, without gaps. */
  lemma {:induction false} LeavesTile(m: Mesh, indices: seq<nat>, n: nat, s: nat)
    requires ValidIndices(m, indices) && |indices| > 0
    ensures LeafSlots(Build(m, indices, n, s).nodes) == Range(s, |indices|)
    decreases |indices|
  {
    hide Halves, BoxOf, ValidIndices, LeafSlots;
    var b := Build(m, indices, n, s);
    if |indices| <= LEAF_TRIANGLES {
      OneNode(b.nodes[0]);
    } else {
      var (l, r) := Halves(m, indices);
      var left := Build(m, l, n + 1, s);
      var right := Build(m, r, n + 1 + |left.nodes|, s + |l|);
      LeavesTile(m, l, n + 1, s);
      LeavesTile(m, r, n + 1 + |left.nodes|, s + |l|);
      var head := [b.nodes[0]];
      LeafSlotsConcat(head, left.nodes);
      LeafSlotsConcat(head + left.nodes, right.nodes);
      OneNode(b.nodes[0]);
      assert Range(b.nodes[0].first, 0) + Range(s, |l|) + Range(s + |l|, |r|) == Range(s, |indices|);
    }
  }

  lemma OneNode(v: Node)
    ensures LeafSlots([v]) == Range(v.first, v.count)
  {
    assert [v][..0] == [];
    assert LeafSlots([v]) == [] + Range(v.first, v.count);
  }

  /** Every node placed by the build is well formed, so child numbers grow and queries terminate. */
  lemma {:induction false} BuildIsTree(m: Mesh, indices: seq<nat>, nodes: seq<Node>, order: seq<nat>, n: nat, s: nat)
    requires ValidIndices(m, indices) && |indices| > 0
    requires Placed(Build(m, indices, n, s), nodes, order, n, s)
    ensures forall i :: n <= i < n + |Build(m, indices, n, s).nodes| ==> GoodNode(nodes, |order|, i)
    decreases |indices|
  {
    hide Build, BoxOf, Placed, ValidIndices, Halves;
    if |indices| <= LEAF_TRIANGLES {
      PlacedLeaf(m, indices, nodes, order, n, s);
    } else {
      PlacedChildren(m, indices, nodes, order, n, s);
      assert n + |Build(m, indices, n, s).nodes| <= |nodes| by {
        PlacedFits(Build(m, indices, n, s), nodes, order, n, s);
      }
      var l := LeftOf(m, indices, n, s);
      BuildIsTree(m, Halves(m, indices).0, nodes, order, n + 1, s);
      BuildIsTree(m, Halves(m, indices).1, nodes, order, n + 1 + |l.nodes|, s + |indices| / 2);
    }
  }

  lemma PlacedFits(b: Built, nodes: seq<Node>, order: seq<nat>, n: nat, s: nat)
    requires Placed(b, nodes, order, n, s)
    ensures n + |b.nodes| <= |nodes| && s + |b.order| <= |order|
  {
  }

  lemma WholeTree(m: Mesh)
    requires ValidMesh(m) && ValidIndices(m, All(m))
    ensures var b := Build(m, All(m), 0, 0);
            && Tree(b.nodes, |b.order|)
            && multiset(b.order) == multiset(All(m))
            && LeafSlots(b.nodes) == Range(0, |m.triangles|)
            && (forall t: nat :: t in b.order <==> t < |m.triangles|)
  {
    hide GoodNode, Build;
    var b := Build(m, All(m), 0, 0);
    assert b.nodes[0..0 + |b.nodes|] == b.nodes && b.order[0..0 + |b.order|] == b.order;
    BuildIsTree(m, All(m), b.nodes, b.order, 0, 0);
    LeavesTile(m, All(m), 0, 0);
    OrderPermutes(m, All(m), 0, 0);
    forall t: nat
      ensures t in b.order <==> t < |m.triangles|
    {
      assert t in b.order <==> t in multiset(b.order);
      assert t < |m.triangles| ==> All(m)[t] == t;
      assert t in multiset(All(m)) <==> t in All(m);
    }
  }

  /** Triangles stored below node `i`. */
  ghost function Below(nodes: seq<Node>, order: seq<nat>, i: nat): multiset<nat>
    requires Tree(nodes, |order|) && i < |nodes|
    decreases |nodes| - i
  {
    assert GoodNode(nodes, |order|, i);
    var v := nodes[i];
    if v.count > 0 then multiset(order[v.first..v.first + v.count])
    else Below(nodes, order, v.left.value) + Below(nodes, order, v.right.value)
  }

  /** The node's box holds the triangles below it, and every box that holds them holds it. */
  ghost predicate Bounds(m: Mesh, nodes: seq<Node>, order: seq<nat>, i: nat)
    requires Tree(nodes, |order|) && i < |nodes|
  {
    && (forall t :: t in Below(nodes, order, i) ==> t < |m.triangles| && InRange(m, m.triangles[t]))
    && HoldsBelow(m, nodes, order, i, nodes[i].aabb)
    && forall big: Aabb :: HoldsBelow(m, nodes, order, i, big) ==> Inside(nodes[i].aabb, big)
  }

  ghost predicate HoldsBelow(m: Mesh, nodes: seq<Node>, order: seq<nat>, i: nat, b: Aabb)
    requires Tree(nodes, |order|) && i < |nodes|
    requires forall t :: t in Below(nodes, order, i) ==> t < |m.triangles| && InRange(m, m.triangles[t])
  {
    forall t :: t in Below(nodes, order, i) ==> TriangleInBox(m, t, b)
  }

  lemma {:induction false} BelowIsGiven(m: Mesh, indices: seq<nat>, nodes: seq<Node>, order: seq<nat>, n: nat, s: nat)
    requires ValidIndices(m, indices) && |indices| > 0 && Tree(nodes, |order|)
    requires Placed(Build(m, indices, n, s), nodes, order, n, s)
    ensures Below(nodes, order, n) == multiset(indices)
    ensures nodes[n].aabb == BoxOf(m, indices).value
    decreases |indices|
  {
    hide Build, BoxOf, GoodNode, Placed, ValidIndices, Halves;
    PlacedFits(Build(m, indices, n, s), nodes, order, n, s);
    if |indices| <= LEAF_TRIANGLES {
      PlacedLeaf(m, indices, nodes, order, n, s);
    } else {
      PlacedChildren(m, indices, nodes, order, n, s);
      BelowIsGiven(m, Halves(m, indices).0, nodes, order, n + 1, s);
      BelowIsGiven(m, Halves(m, indices).1, nodes, order, n + 1 + |LeftOf(m, indices, n, s).nodes|, s + |indices| / 2);
    }
  }

  lemma RootBounds(m: Mesh, indices: seq<nat>, nodes: seq<Node>, order: seq<nat>, n: nat, s: nat)
    requires ValidIndices(m, indices) && |indices| > 0 && Tree(nodes, |order|)
    requires Placed(Build(m, indices, n, s), nodes, order, n, s)
    ensures Bounds(m, nodes, order, n)
  {
    hide Build, BoxOf, GoodNode, TriangleInBox, Below, Inside;
    BelowIsGiven(m, indices, nodes, order, n, s);
    BoxIsHull(m, indices, BoxOf(m, indices).value);
    assert forall t :: t in indices <==> t in multiset(indices);
    forall big: Aabb | HoldsBelow(m, nodes, order, n, big)
      ensures Inside(nodes[n].aabb, big)
    {
      BoxIsHull(m, indices, big);
    }
  }

  lemma {:induction false} BoxesNest(m: Mesh, indices: seq<nat>, nodes: seq<Node>, order: seq<nat>, n: nat, s: nat)
    requires ValidIndices(m, indices) && |indices| > 0 && Tree(nodes, |order|)
    requires Placed(Build(m, indices, n, s), nodes, order, n, s)
    ensures forall i :: n <= i < n + |Build(m, indices, n, s).nodes| ==> Bounds(m, nodes, order, i)
    decreases |indices|
  {
    hide Build, BoxOf, GoodNode, Bounds, Placed, ValidIndices, Halves;
    PlacedFits(Build(m, indices, n, s), nodes, order, n, s);
    RootBounds(m, indices, nodes, order, n, s);
    if |indices| <= LEAF_TRIANGLES {
      PlacedLeaf(m, indices, nodes, order, n, s);
    } else {
      PlacedChildren(m, indices, nodes, order, n, s);
      BoxesNest(m, Halves(m, indices).0, nodes, order, n + 1, s);
      BoxesNest(m, Halves(m, indices).1, nodes, order, n + 1 + |LeftOf(m, indices, n, s).nodes|, s + |indices| / 2);
    }
  }
}
