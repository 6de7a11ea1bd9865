/** Ray queries on the panel tree: slab pruning, the triangle test, and what the pruning costs. */
module RayQuery {
  import opened Wrappers
  import opened Reals
  import opened PanelMesh
  import opened PanelBvh

  const TINY := 0.000000000001

  // ---------------------------------------------------------------- slab test

  /** Ray parameters `t` with `lo <= t`, and `t <= hi` unless `hi` is infinite (`None`). */
  datatype Interval = Interval(lo: real, hi: Option<real>) {
    predicate Has(t: real) {
      lo <= t && (hi.Some? ==> t <= hi.value)
    }
  }

  function Crossing(o: real, d: real, bound: real): real
    requires d != 0.0
  {
    (bound - o) * (1.0 / d)
  }

  /** Where the ray enters and leaves the slab `min..max`, in this order. */
  function SlabRange(o: real, d: real, min: real, max: real): (real, real)
    requires d != 0.0
  {
    var (a, b) := (Crossing(o, d, min), Crossing(o, d, max));
    if a > b then (b, a) else (a, b)
  }

  /** One pass of the slab loop; `None` where the loop returns false. */
  function ClipAxis(iv: Interval, o: real, d: real, min: real, max: real): (r: Option<Interval>) {
    if Abs(d) <= TINY then
      if o < min || o > max then None else Some(iv)
    else
      var (t0, t1) := SlabRange(o, d, min, max);
      var lo := Max(iv.lo, t0);
      var hi := match iv.hi case None => t1 case Some(h) => Min(h, t1);
      if hi < lo then None else Some(Interval(lo, Some(hi)))
  }

  function SlabInterval(o: Vector3, d: Vector3, b: Aabb): Option<Interval> {
    match ClipAxis(Interval(0.0, None), o.x, d.x, b.min.x, b.max.x)
    case None => None
    case Some(iv) =>
      match ClipAxis(iv, o.y, d.y, b.min.y, b.max.y)
      case None => None
      case Some(iv) => ClipAxis(iv, o.z, d.z, b.min.z, b.max.z)
  }

  predicate RayIntersectsAabb(o: Vector3, d: Vector3, b: Aabb) {
    match SlabInterval(o, d, b)
    case None => false
    case Some(iv) => iv.hi.Some? ==> iv.hi.value > TINY
  }

  /** The loop over the three axes, updating the two bounds of the ray parameter. */
  method RayIntersectsAabbLoop(o: Vector3, d: Vector3, b: Aabb) returns (hit: bool)
    ensures hit == RayIntersectsAabb(o, d, b)
  {
    hide Crossing;
    var axes := [(o.x, d.x, b.min.x, b.max.x), (o.y, d.y, b.min.y, b.max.y), (o.z, d.z, b.min.z, b.max.z)];
    var tMin: real, tMax: Option<real> := 0.0, None;
    for i := 0 to 3
      invariant i == 0 ==> Interval(tMin, tMax) == Interval(0.0, None)
      invariant i == 1 ==> ClipAxis(Interval(0.0, None), o.x, d.x, b.min.x, b.max.x) == Some(Interval(tMin, tMax))
      invariant i == 2 ==>
          var first := ClipAxis(Interval(0.0, None), o.x, d.x, b.min.x, b.max.x);
          first.Some? && ClipAxis(first.value, o.y, d.y, b.min.y, b.max.y) == Some(Interval(tMin, tMax))
      invariant i == 3 ==> SlabInterval(o, d, b) == Some(Interval(tMin, tMax))
    {
      var (origin, direction, min, max) := axes[i];
      ghost var was := Interval(tMin, tMax);
      if Abs(direction) <= TINY {
        if origin < min || origin > max {
          assert ClipAxis(was, origin, direction, min, max) == None;
          return false;
        }
        assert ClipAxis(was, origin, direction, min, max) == Some(Interval(tMin, tMax));
        continue;
      }
      var t0 := Crossing(origin, direction, min);
      var t1 := Crossing(origin, direction, max);
      if t0 > t1 {
        t0, t1 := t1, t0;
      }
      tMin := Max(tMin, t0);
      tMax := Some(match tMax case None => t1 case Some(h) => Min(h, t1));
      if tMax.value < tMin {
        assert ClipAxis(was, origin, direction, min, max) == None;
        return false;
      }
      assert ClipAxis(was, origin, direction, min, max) == Some(Interval(tMin, tMax));
    }
    hit := tMax.Some? ==> tMax.value > TINY;
  }

  /** Where along the ray the slab of one axis lets it pass; a tiny direction is taken as parallel. */
  predicate AxisAllows(o: real, d: real, min: real, max: real, t: real) {
    if Abs(d) <= TINY then min <= o <= max else min <= o + t * d <= max
  }

  predicate BoxAllows(o: Vector3, d: Vector3, b: Aabb, t: real) {
    && AxisAllows(o.x, d.x, b.min.x, b.max.x, t)
    && AxisAllows(o.y, d.y, b.min.y, b.max.y, t)
    && AxisAllows(o.z, d.z, b.min.z, b.max.z, t)
  }

  lemma QuotientOrder(a: real, d: real, t: real)
    requires d != 0.0
    ensures d > 0.0 ==> (a * (1.0 / d) <= t <==> a <= t * d) && (t <= a * (1.0 / d) <==> t * d <= a)
    ensures d < 0.0 ==> (a * (1.0 / d) <= t <==> t * d <= a) && (t <= a * (1.0 / d) <==> a <= t * d)
  {
    var q := a * (1.0 / d);
    assert q * d == a;
    Monotone(q, t, d);
    Monotone(t, q, d);
  }

  lemma Monotone(p: real, q: real, d: real)
    ensures d > 0.0 && p < q ==> p * d < q * d
    ensures d < 0.0 && p < q ==> p * d > q * d
  {
    if d > 0.0 && p < q {
      assert (q - p) * d > 0.0;
    }
    if d < 0.0 && p < q {
      assert (q - p) * (-d) > 0.0;
    }
  }

  lemma SlabRangeMeaning(o: real, d: real, min: real, max: real, t: real)
    requires d != 0.0 && min <= max
    ensures var (t0, t1) := SlabRange(o, d, min, max);
            (t0 <= t <= t1 <==> min <= o + t * d <= max) && t0 <= t1
  {
    var a, b := (min - o) * (1.0 / d), (max - o) * (1.0 / d);
    QuotientOrder(min - o, d, t);
    QuotientOrder(max - o, d, t);
    QuotientOrder(min - o, d, b);
    assert b * d == max - o;
    assert if d > 0.0 then a <= b else b <= a;
    assert a == Crossing(o, d, min) && b == Crossing(o, d, max);
  }

  /** Clipping keeps exactly the parameters that the axis allows. */
  lemma ClipMeaning(iv: Interval, o: real, d: real, min: real, max: real, t: real)
    requires min <= max && iv.lo >= 0.0 && (iv.hi.Some? ==> iv.lo <= iv.hi.value)
    ensures var r := ClipAxis(iv, o, d, min, max);
            && (iv.Has(t) && AxisAllows(o, d, min, max, t) <==> r.Some? && r.value.Has(t))
            && (r.Some? ==> r.value.lo >= 0.0 && (r.value.hi.Some? ==> r.value.lo <= r.value.hi.value))
  {
    hide SlabRange;
    if Abs(d) > TINY {
      SlabRangeMeaning(o, d, min, max, t);
    }
  }

  ghost predicate ProperBox(b: Aabb) {
    b.min.x <= b.max.x && b.min.y <= b.max.y && b.min.z <= b.max.z
  }

  lemma SlabIntervalMeaning(o: Vector3, d: Vector3, b: Aabb, t: real)
    requires ProperBox(b)
    ensures var r := SlabInterval(o, d, b);
            && (t >= 0.0 && BoxAllows(o, d, b, t) <==> r.Some? && r.value.Has(t))
            && (r.Some? ==> r.value.lo >= 0.0 && (r.value.hi.Some? ==> r.value.lo <= r.value.hi.value))
  {
    hide ClipAxis, AxisAllows;
    var iv := Interval(0.0, None);
    ClipMeaning(iv, o.x, d.x, b.min.x, b.max.x, t);
    var x := ClipAxis(iv, o.x, d.x, b.min.x, b.max.x);
    if x.Some? {
      ClipMeaning(x.value, o.y, d.y, b.min.y, b.max.y, t);
      var y := ClipAxis(x.value, o.y, d.y, b.min.y, b.max.y);
      if y.Some? {
        ClipMeaning(y.value, o.z, d.z, b.min.z, b.max.z, t);
      }
    }
  }

  /** The slab test passes exactly when some point of the ray beyond the tolerance is allowed by all axes. */
  lemma SlabTestMeaning(o: Vector3, d: Vector3, b: Aabb)
    requires ProperBox(b)
    ensures RayIntersectsAabb(o, d, b) <==> exists t :: t > TINY && BoxAllows(o, d, b, t)
  {
    hide BoxAllows, SlabInterval;
    if RayIntersectsAabb(o, d, b) {
      SlabIntervalMeaning(o, d, b, 0.0);
      var iv := SlabInterval(o, d, b).value;
      var t := if iv.hi.Some? then iv.hi.value else Max(iv.lo, 1.0);
      SlabIntervalMeaning(o, d, b, t);
      assert t > TINY && BoxAllows(o, d, b, t);
    }
    if t :| t > TINY && BoxAllows(o, d, b, t) {
      SlabIntervalMeaning(o, d, b, t);
    }
  }

  // ---------------------------------------------------------------- triangle test

  predicate RayIntersectsTriangle(a: Vector3, b: Vector3, c: Vector3, o: Vector3, d: Vector3) {
    var (e1, e2) := (b.Minus(a), c.Minus(a));
    var p := d.Cross(e2);
    var det := e1.Dot(p);
    if Abs(det) <= TINY then false
    else
      var inv := 1.0 / det;
      var s := o.Minus(a);
      var u := s.Dot(p) * inv;
      if !(0.0 <= u <= 1.0) then false
      else
        var q := s.Cross(e1);
        var v := d.Dot(q) * inv;
        if v < 0.0 || u + v > 1.0 then false
        else e2.Dot(q) * inv > TINY
  }

  predicate RayIntersectsMeshTriangle(m: Mesh, t: nat, o: Vector3, d: Vector3)
    requires t < |m.triangles| && InRange(m, m.triangles[t])
  {
    RayIntersectsTriangle(VertexOf(m, t, 0), VertexOf(m, t, 1), VertexOf(m, t, 2), o, d)
  }

  /** Cramer's rule for `s == u e + v f - t d`, one coordinate at a time. */
  lemma CramerX(s: Vector3, e: Vector3, f: Vector3, d: Vector3)
    ensures e.Dot(d.Cross(f)) * s.x
            == s.Dot(d.Cross(f)) * e.x + d.Dot(s.Cross(e)) * f.x - f.Dot(s.Cross(e)) * d.x
  {
  }

  lemma CramerY(s: Vector3, e: Vector3, f: Vector3, d: Vector3)
    ensures e.Dot(d.Cross(f)) * s.y
            == s.Dot(d.Cross(f)) * e.y + d.Dot(s.Cross(e)) * f.y - f.Dot(s.Cross(e)) * d.y
  {
  }

  lemma CramerZ(s: Vector3, e: Vector3, f: Vector3, d: Vector3)
    ensures e.Dot(d.Cross(f)) * s.z
            == s.Dot(d.Cross(f)) * e.z + d.Dot(s.Cross(e)) * f.z - f.Dot(s.Cross(e)) * d.z
  {
  }

  /** Dividing Cramer's rule by a nonzero determinant, for one coordinate. */
  lemma Divided(det: real, s: real, du: real, e: real, dv: real, f: real, dt: real, d: real,
                u: real, v: real, t: real)
    requires det != 0.0 && det * s == du * e + dv * f - dt * d
    requires u == du * (1.0 / det) && v == dv * (1.0 / det) && t == dt * (1.0 / det)
    ensures s + t * d == u * e + v * f
  {
    var inv := 1.0 / det;
    assert inv * det == 1.0;
    Scaled(inv, det, s);
    Scaled(inv, du, e);
    Scaled(inv, dv, f);
    Scaled(inv, dt, d);
    assert inv * (det * s) == inv * (du * e) + inv * (dv * f) - inv * (dt * d);
  }

  lemma Scaled(i: real, a: real, b: real)
    ensures i * (a * b) == (a * i) * b
  {
  }

  /** A hit is a point of the triangle: `o + t d == a + u (b - a) + v (c - a)` with convex weights. */
  lemma HitIsOnTriangle(a: Vector3, b: Vector3, c: Vector3, o: Vector3, d: Vector3) returns (u: real, v: real, t: real)
    requires RayIntersectsTriangle(a, b, c, o, d)
    ensures t > TINY && u >= 0.0 && v >= 0.0 && u + v <= 1.0
    ensures o.x + t * d.x == a.x + u * (b.x - a.x) + v * (c.x - a.x)
    ensures o.y + t * d.y == a.y + u * (b.y - a.y) + v * (c.y - a.y)
    ensures o.z + t * d.z == a.z + u * (b.z - a.z) + v * (c.z - a.z)
  {
    hide Vector3.Dot, Vector3.Cross;
    var e1, e2, s := b.Minus(a), c.Minus(a), o.Minus(a);
    var det, du, dv, dt := e1.Dot(d.Cross(e2)), s.Dot(d.Cross(e2)), d.Dot(s.Cross(e1)), e2.Dot(s.Cross(e1));
    u, v, t := du * (1.0 / det), dv * (1.0 / det), dt * (1.0 / det);
    HitCoordinates(s, e1, e2, d, det, du, dv, dt, u, v, t);
  }

  lemma HitCoordinates(s: Vector3, e: Vector3, f: Vector3, d: Vector3, det: real, du: real, dv: real, dt: real,
                       u: real, v: real, t: real)
    requires det == e.Dot(d.Cross(f)) && du == s.Dot(d.Cross(f)) && dv == d.Dot(s.Cross(e)) && dt == f.Dot(s.Cross(e))
    requires det != 0.0 && u == du * (1.0 / det) && v == dv * (1.0 / det) && t == dt * (1.0 / det)
    ensures s.x + t * d.x == u * e.x + v * f.x
    ensures s.y + t * d.y == u * e.y + v * f.y
    ensures s.z + t * d.z == u * e.z + v * f.z
  {
    hide Vector3.Dot, Vector3.Cross;
    CramerX(s, e, f, d);
    CramerY(s, e, f, d);
    CramerZ(s, e, f, d);
    Divided(det, s.x, du, e.x, dv, f.x, dt, d.x, u, v, t);
    Divided(det, s.y, du, e.y, dv, f.y, dt, d.y, u, v, t);
    Divided(det, s.z, du, e.z, dv, f.z, dt, d.z, u, v, t);
  }

  lemma Ratio(num: real, den: real, q: real)
    requires den != 0.0 && num == q * den
    ensures num * (1.0 / den) == q
  {
    var inv := 1.0 / den;
    assert inv * den == 1.0;
    assert (q * den) * inv == q * (den * inv);
  }

  /** The test from its Cramer numerators. */
  lemma HitFromNumerators(a: Vector3, b: Vector3, c: Vector3, o: Vector3, d: Vector3,
                          det: real, u: real, v: real, t: real)
    requires var e, f, s := b.Minus(a), c.Minus(a), o.Minus(a);
             && det == e.Dot(d.Cross(f)) && s.Dot(d.Cross(f)) == u * det
             && d.Dot(s.Cross(e)) == v * det && f.Dot(s.Cross(e)) == t * det
    requires Abs(det) > TINY && u >= 0.0 && v >= 0.0 && u + v <= 1.0 && t > TINY
    ensures RayIntersectsTriangle(a, b, c, o, d)
  {
    hide Vector3.Dot, Vector3.Cross, Vector3.Minus;
    var e, f, s := b.Minus(a), c.Minus(a), o.Minus(a);
    Ratio(s.Dot(d.Cross(f)), det, u);
    Ratio(d.Dot(s.Cross(e)), det, v);
    Ratio(f.Dot(s.Cross(e)), det, t);
  }

  function Weighted(e: Vector3, f: Vector3, d: Vector3, u: real, v: real, t: real): Vector3 {
    e.Times(u).Plus(f.Times(v)).Minus(d.Times(t))
  }

  lemma WeightedDot(e: Vector3, f: Vector3, d: Vector3, u: real, v: real, t: real, p: Vector3)
    ensures Weighted(e, f, d, u, v, t).Dot(p) == u * e.Dot(p) + v * f.Dot(p) - t * d.Dot(p)
  {
    WeightedTerm(e.x, f.x, d.x, u, v, t, p.x);
    WeightedTerm(e.y, f.y, d.y, u, v, t, p.y);
    WeightedTerm(e.z, f.z, d.z, u, v, t, p.z);
    ThreeTerms(u, e.x * p.x, e.y * p.y, e.z * p.z);
    ThreeTerms(v, f.x * p.x, f.y * p.y, f.z * p.z);
    ThreeTerms(t, d.x * p.x, d.y * p.y, d.z * p.z);
  }

  lemma WeightedTerm(e: real, f: real, d: real, u: real, v: real, t: real, p: real)
    ensures (u * e + v * f - t * d) * p == u * (e * p) + v * (f * p) - t * (d * p)
  {
  }

  lemma ThreeTerms(k: real, a: real, b: real, c: real)
    ensures k * (a + b + c) == k * a + k * b + k * c
  {
  }

  lemma TripleTurns(a: Vector3, b: Vector3, c: Vector3)
    ensures a.Dot(b.Cross(c)) == b.Dot(c.Cross(a))
  {
  }

  lemma TripleSwaps(a: Vector3, b: Vector3, c: Vector3)
    ensures a.Dot(b.Cross(c)) == -b.Dot(a.Cross(c))
  {
  }

  lemma TripleRepeats(a: Vector3, b: Vector3)
    ensures a.Dot(a.Cross(b)) == 0.0 == b.Dot(a.Cross(b))
  {
  }

  lemma TripleProducts(a: Vector3, b: Vector3, c: Vector3)
    ensures a.Dot(b.Cross(c)) == b.Dot(c.Cross(a)) == c.Dot(a.Cross(b)) == -b.Dot(a.Cross(c))
    ensures a.Dot(a.Cross(b)) == 0.0 == b.Dot(a.Cross(b))
  {
    hide Vector3.Dot, Vector3.Cross;
    TripleTurns(a, b, c);
    TripleTurns(b, c, a);
    TripleSwaps(a, b, c);
    TripleRepeats(a, b);
  }

  /** The numerators of a point given by its weights: multiples of the determinant. */
  lemma NumeratorsOf(e: Vector3, f: Vector3, d: Vector3, u: real, v: real, t: real)
    ensures var s := Weighted(e, f, d, u, v, t);
            var det := e.Dot(d.Cross(f));
            && s.Dot(d.Cross(f)) == u * det && d.Dot(s.Cross(e)) == v * det && f.Dot(s.Cross(e)) == t * det
  {
    hide Vector3.Dot, Vector3.Cross, Weighted;
    var s := Weighted(e, f, d, u, v, t);
    WeightedDot(e, f, d, u, v, t, d.Cross(f));
    WeightedDot(e, f, d, u, v, t, e.Cross(d));
    WeightedDot(e, f, d, u, v, t, e.Cross(f));
    TripleProducts(d, f, e);
    TripleProducts(e, d, f);
    TripleProducts(e, f, d);
    TripleProducts(d, s, e);
    TripleProducts(f, s, e);
    assert u * 0.0 == 0.0 && v * 0.0 == 0.0 && t * 0.0 == 0.0;
  }

  /** The point reached at parameter `t` is the one with weights `u` and `v` on the edges from the first corner. */
  predicate MeetsAt(a: Vector3, b: Vector3, c: Vector3, o: Vector3, d: Vector3, u: real, v: real, t: real) {
    o.Plus(d.Times(t)) == a.Plus(b.Minus(a).Times(u)).Plus(c.Minus(a).Times(v))
  }

  lemma OffsetIsWeighted(a: Vector3, b: Vector3, c: Vector3, o: Vector3, d: Vector3, u: real, v: real, t: real)
    requires MeetsAt(a, b, c, o, d, u, v, t)
    ensures o.Minus(a) == Weighted(b.Minus(a), c.Minus(a), d, u, v, t)
  {
  }

  /** A point of the triangle met beyond the tolerance is found, unless the ray is nearly in the triangle's plane. */
  lemma HitIsFound(a: Vector3, b: Vector3, c: Vector3, o: Vector3, d: Vector3, u: real, v: real, t: real)
    requires MeetsAt(a, b, c, o, d, u, v, t) && u >= 0.0 && v >= 0.0 && u + v <= 1.0 && t > TINY
    requires Abs(b.Minus(a).Dot(d.Cross(c.Minus(a)))) > TINY
    ensures RayIntersectsTriangle(a, b, c, o, d)
  {
    hide Vector3.Dot, Vector3.Cross, Vector3.Minus, Weighted, RayIntersectsTriangle, MeetsAt, Abs;
    var e, f := b.Minus(a), c.Minus(a);
    OffsetIsWeighted(a, b, c, o, d, u, v, t);
    NumeratorsOf(e, f, d, u, v, t);
    HitFromNumerators(a, b, c, o, d, e.Dot(d.Cross(f)), u, v, t);
  }

  /** The test is true exactly when the ray is not nearly in the plane and meets the triangle beyond the tolerance. */
  lemma TriangleTestMeaning(a: Vector3, b: Vector3, c: Vector3, o: Vector3, d: Vector3)
    ensures RayIntersectsTriangle(a, b, c, o, d) <==>
            Abs(b.Minus(a).Dot(d.Cross(c.Minus(a)))) > TINY
            && exists u: real, v: real, t: real ::
                 MeetsAt(a, b, c, o, d, u, v, t) && u >= 0.0 && v >= 0.0 && u + v <= 1.0 && t > TINY
  {
    hide Vector3.Dot, Vector3.Cross;
    if RayIntersectsTriangle(a, b, c, o, d) {
      var u, v, t := HitIsOnTriangle(a, b, c, o, d);
      assert MeetsAt(a, b, c, o, d, u, v, t);
    }
    if Abs(b.Minus(a).Dot(d.Cross(c.Minus(a)))) > TINY {
      if u: real, v: real, t: real :|
         MeetsAt(a, b, c, o, d, u, v, t) && u >= 0.0 && v >= 0.0 && u + v <= 1.0 && t > TINY {
        HitIsFound(a, b, c, o, d, u, v, t);
      }
    }
  }

  lemma ProductOrder(w: real, a: real, min: real, max: real)
    requires w >= 0.0 && min <= a <= max
    ensures Product(w, min) <= Product(w, a) <= Product(w, max)
  {
    assert w * (a - min) >= 0.0 && w * (max - a) >= 0.0;
  }

  lemma ProductsTotal(w: real, u: real, v: real, x: real)
    requires w + u + v == 1.0
    ensures Product(w, x) + Product(u, x) + Product(v, x) == x
  {
    assert w == 1.0 - u - v;
  }

  lemma Average(w: real, u: real, v: real, a: real, b: real, c: real, min: real, max: real)
    requires w >= 0.0 && u >= 0.0 && v >= 0.0 && w + u + v == 1.0
    requires min <= a <= max && min <= b <= max && min <= c <= max
    ensures min <= Product(w, a) + Product(u, b) + Product(v, c) <= max
  {
    hide Product;
    ProductOrder(w, a, min, max);
    ProductOrder(u, b, min, max);
    ProductOrder(v, c, min, max);
    ProductsTotal(w, u, v, min);
    ProductsTotal(w, u, v, max);
  }

  /** A convex combination of three numbers stays between their bounds. */
  lemma Convex(a: real, b: real, c: real, u: real, v: real, min: real, max: real)
    requires u >= 0.0 && v >= 0.0 && u + v <= 1.0
    requires min <= a <= max && min <= b <= max && min <= c <= max
    ensures min <= a + u * (b - a) + v * (c - a) <= max
  {
    var w := 1.0 - u - v;
    Average(w, u, v, a, b, c, min, max);
    assert a + u * (b - a) + v * (c - a) == Product(w, a) + Product(u, b) + Product(v, c);
  }

  /** Directions the slab test handles exactly: no component is tiny without being zero. */
  predicate RegularDirection(d: Vector3) {
    && (d.x == 0.0 || Abs(d.x) > 0.000000000001)
    && (d.y == 0.0 || Abs(d.y) > 0.000000000001)
    && (d.z == 0.0 || Abs(d.z) > 0.000000000001)
  }

  /** For a regular direction the slab test never prunes a box that holds a hit triangle. */
  lemma HitIsNotPruned(m: Mesh, t: nat, b: Aabb, o: Vector3, d: Vector3)
    requires t < |m.triangles| && InRange(m, m.triangles[t]) && TriangleInBox(m, t, b)
    requires RegularDirection(d) && RayIntersectsMeshTriangle(m, t, o, d)
    ensures RayIntersectsAabb(o, d, b)
  {
    hide RayIntersectsTriangle, RayIntersectsAabb, BoxAllows, VertexOf, InBox, RegularDirection;
    var p, q, r := VertexOf(m, t, 0), VertexOf(m, t, 1), VertexOf(m, t, 2);
    var u, v, s := HitIsOnTriangle(p, q, r, o, d);
    PointAllowed(p, q, r, u, v, s, o, d, b);
    SlabTestMeaning(o, d, b);
  }

  lemma PointAllowed(p: Vector3, q: Vector3, r: Vector3, u: real, v: real, s: real, o: Vector3, d: Vector3, b: Aabb)
    requires InBox(p, b) && InBox(q, b) && InBox(r, b) && RegularDirection(d)
    requires u >= 0.0 && v >= 0.0 && u + v <= 1.0
    requires o.x + s * d.x == p.x + u * (q.x - p.x) + v * (r.x - p.x)
    requires o.y + s * d.y == p.y + u * (q.y - p.y) + v * (r.y - p.y)
    requires o.z + s * d.z == p.z + u * (q.z - p.z) + v * (r.z - p.z)
    ensures BoxAllows(o, d, b, s) && ProperBox(b)
  {
    hide AxisAllows, Abs;
    CoordinateAllowed(p.x, q.x, r.x, u, v, o.x, d.x, s, b.min.x, b.max.x);
    CoordinateAllowed(p.y, q.y, r.y, u, v, o.y, d.y, s, b.min.y, b.max.y);
    CoordinateAllowed(p.z, q.z, r.z, u, v, o.z, d.z, s, b.min.z, b.max.z);
  }

  lemma CoordinateAllowed(a: real, b: real, c: real, u: real, v: real, o: real, d: real, t: real, min: real, max: real)
    requires u >= 0.0 && v >= 0.0 && u + v <= 1.0 && o + t * d == a + u * (b - a) + v * (c - a)
    requires min <= a <= max && min <= b <= max && min <= c <= max
    requires d == 0.0 || Abs(d) > TINY
    ensures AxisAllows(o, d, min, max, t)
  {
    Convex(a, b, c, u, v, min, max);
    ParallelStays(o, d, t);
  }

  lemma ParallelStays(o: real, d: real, t: real)
    ensures d == 0.0 ==> o + t * d == o
  {
  }

  // ---------------------------------------------------------------- the recursive query

  predicate AnyHit(m: Mesh, ts: seq<nat>, o: Vector3, d: Vector3)
    requires ValidIndices(m, ts)
  {
    exists k :: 0 <= k < |ts| && RayIntersectsMeshTriangle(m, ts[k], o, d)
  }

  ghost predicate Searchable(m: Mesh, nodes: seq<Node>, order: seq<nat>) {
    Tree(nodes, |order|) && ValidIndices(m, order)
  }

  predicate RayIntersectsNode(m: Mesh, nodes: seq<Node>, order: seq<nat>, i: nat, o: Vector3, d: Vector3)
    requires Searchable(m, nodes, order) && i < |nodes|
    decreases |nodes| - i
  {
    assert GoodNode(nodes, |order|, i);
    var v := nodes[i];
    if !RayIntersectsAabb(o, d, v.aabb) then false
    else if v.count > 0 then AnyHit(m, order[v.first..v.first + v.count], o, d)
    else
      RayIntersectsNode(m, nodes, order, v.left.value, o, d) || RayIntersectsNode(m, nodes, order, v.right.value, o, d)
  }

  lemma AnyHitOf(m: Mesh, a: seq<nat>, l: seq<nat>, r: seq<nat>, o: Vector3, d: Vector3)
    requires ValidIndices(m, a) && ValidIndices(m, l) && ValidIndices(m, r)
    requires multiset(a) == multiset(l) + multiset(r)
    ensures AnyHit(m, a, o, d) <==> AnyHit(m, l, o, d) || AnyHit(m, r, o, d)
  {
    hide RayIntersectsMeshTriangle;
    if k :| 0 <= k < |a| && RayIntersectsMeshTriangle(m, a[k], o, d) {
      assert a[k] in multiset(a);
      assert a[k] in l || a[k] in r;
    }
    if k :| 0 <= k < |l| && RayIntersectsMeshTriangle(m, l[k], o, d) {
      assert l[k] in multiset(a);
      assert l[k] in a;
    }
    if k :| 0 <= k < |r| && RayIntersectsMeshTriangle(m, r[k], o, d) {
      assert r[k] in multiset(a);
      assert r[k] in a;
    }
  }

  /**
   * On a built subtree the pruned query never invents a hit, and for a regular direction it misses
   * none: it agrees with testing every triangle.
   */
  lemma {:induction false} QueryAgrees(m: Mesh, indices: seq<nat>, nodes: seq<Node>, order: seq<nat>,
                                       n: nat, s: nat, o: Vector3, d: Vector3)
    requires ValidIndices(m, indices) && |indices| > 0 && Searchable(m, nodes, order)
    requires Placed(Build(m, indices, n, s), nodes, order, n, s)
    ensures n < |nodes|
    ensures RayIntersectsNode(m, nodes, order, n, o, d) ==> AnyHit(m, indices, o, d)
    ensures RegularDirection(d) ==> (RayIntersectsNode(m, nodes, order, n, o, d) <==> AnyHit(m, indices, o, d))
    decreases |indices|
  {
    hide Build, BoxOf, Placed, Halves, RayIntersectsAabb, AnyHit, GoodNode, RegularDirection, ValidIndices;
    if |indices| <= LEAF_TRIANGLES {
      PlacedLeaf(m, indices, nodes, order, n, s);
    } else {
      PlacedChildren(m, indices, nodes, order, n, s);
      var l, r := Halves(m, indices).0, Halves(m, indices).1;
      QueryAgrees(m, l, nodes, order, n + 1, s, o, d);
      QueryAgrees(m, r, nodes, order, n + 1 + |LeftOf(m, indices, n, s).nodes|, s + |indices| / 2, o, d);
      AnyHitOf(m, indices, l, r, o, d);
    }
    if RegularDirection(d) {
      AnyHitReachesBox(m, indices, o, d);
    }
  }

  lemma AnyHitReachesBox(m: Mesh, indices: seq<nat>, o: Vector3, d: Vector3)
    requires ValidIndices(m, indices) && |indices| > 0 && RegularDirection(d)
    ensures AnyHit(m, indices, o, d) ==> RayIntersectsAabb(o, d, BoxOf(m, indices).value)
  {
    hide RayIntersectsMeshTriangle, RayIntersectsAabb, BoxOf, TriangleInBox, RegularDirection;
    var box := BoxOf(m, indices).value;
    BoxIsHull(m, indices, box);
    if k :| 0 <= k < |indices| && RayIntersectsMeshTriangle(m, indices[k], o, d) {
      assert indices[k] in indices;
      HitIsNotPruned(m, indices[k], box, o, d);
    }
  }
}
