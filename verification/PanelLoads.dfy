/** Local-inclination panel integration: total force and moment, axial bins, ray shadowing. */
module PanelLoads {
  import opened Wrappers
  import opened Reals
  import opened PanelMesh
  import opened PanelBvh
  import opened RayQueryExactness

  /** Skin friction: its parameters, and the correlation at a Mach number and a local Reynolds number. */
  datatype Friction = Friction(referenceLength: real, wallToEdgeRatio: real, correlation: (real, real) -> real)

  datatype Panels = Panels(geometry: Mesh, shadowing: bool, cpMax: real, friction: Option<Friction>)

  /** Flight condition: unit vector against the stream, dynamic pressure, Mach and length Reynolds numbers. */
  datatype Flow = Flow(upstream: Vector3, dynamicPressure: real, mach: real, reynoldsLength: real)

  datatype LoadError = BadPressure | BadStations | BadPressureCoefficient | BadReynolds | OutsideCorrelation

  datatype Load = Load(force: Vector3, moment: Vector3) {
    function Plus(o: Load): Load { Load(force.Plus(o.force), moment.Plus(o.moment)) }
  }

  datatype Solution = Solution(total: Load, bins: seq<Load>)

  datatype Outcome = Solved(solution: Solution) | Failed(error: LoadError)

  const ZERO := Vector3(0.0, 0.0, 0.0)
  const MIN_REYNOLDS := 1000.0

  /** `norm` is the Euclidean length. */
  ghost predicate Euclidean(norm: Vector3 -> real) {
    forall v :: IsNorm(norm(v), v)
  }

  ghost predicate ProperFlow(f: Flow) {
    f.upstream.Dot(f.upstream) == 1.0
  }

  ghost predicate ProperFriction(f: Friction) {
    f.referenceLength > 0.0 && f.wallToEdgeRatio > 0.0 && forall mach, re :: f.correlation(mach, re) >= 0.0
  }

  ghost predicate ProperPanels(p: Panels) {
    && ValidMesh(p.geometry)
    && (p.friction.Some? ==> ProperFriction(p.friction.value))
  }

  // ---------------------------------------------------------------- one panel

  /** Centroid, area and unit normal of a panel. */
  datatype Facet = Facet(centroid: Vector3, area: real, normal: Vector3)

  function FacetOf(norm: Vector3 -> real, m: Mesh, i: nat): Facet
    requires i < |m.triangles| && InRange(m, m.triangles[i]) && norm(AreaVector(m, m.triangles[i])) != 0.0
  {
    var areaVector := AreaVector(m, m.triangles[i]);
    var length := norm(areaVector);
    Facet(VertexOf(m, i, 0).Plus(VertexOf(m, i, 1)).Plus(VertexOf(m, i, 2)).Times(1.0 / 3.0),
          0.5 * length, areaVector.Times(1.0 / length))
  }

  function PressurePush(cpMax: real, f: Flow, facet: Facet): real {
    var incidence := Abs(facet.normal.Dot(f.upstream));
    cpMax * incidence * incidence * f.dynamicPressure * facet.area
  }

  function PressureForce(cpMax: real, f: Flow, facet: Facet): Vector3 {
    var c := facet.normal.Dot(f.upstream);
    var facing := if c >= 0.0 then facet.normal else facet.normal.Times(-1.0);
    facing.Times(-PressurePush(cpMax, f, facet))
  }

  function MinX(vertices: seq<Vector3>): real
    requires |vertices| > 0
  {
    if |vertices| == 1 then vertices[0].x else Min(MinX(vertices[..|vertices| - 1]), vertices[|vertices| - 1].x)
  }

  function Tangent(f: Flow, normal: Vector3): Vector3 {
    f.upstream.Minus(normal.Times(normal.Dot(f.upstream)))
  }

  function ReferenceTemperatureRatio(friction: Friction, mach: real): real {
    1.0 + 0.032 * mach * mach + 0.58 * (friction.wallToEdgeRatio - 1.0)
  }

  /** The coefficient, or the refusal of inputs outside the correlation's envelope. */
  function Coefficient(friction: Friction, mach: real, reynolds: real): Result<real, LoadError> {
    if mach < 0.0 || reynolds < MIN_REYNOLDS || ReferenceTemperatureRatio(friction, mach) <= 0.0
    then Err(OutsideCorrelation)
    else Ok(friction.correlation(mach, reynolds))
  }

  /** Of the three checks only the one on the Mach number can fail when the Reynolds number was bounded below. */
  lemma RefusesNegativeMach(friction: Friction, mach: real, reynolds: real)
    requires friction.wallToEdgeRatio > 0.0 && reynolds >= MIN_REYNOLDS
    ensures Coefficient(friction, mach, reynolds).Err? <==> mach < 0.0
  {
    if mach >= 0.0 {
      NonNegativeProduct(0.032 * mach, mach);
    }
  }

  function LocalReynolds(friction: Friction, f: Flow, minX: real, facet: Facet): (re: real)
    requires friction.referenceLength != 0.0
    ensures re >= MIN_REYNOLDS
  {
    Max(f.reynoldsLength * Max(facet.centroid.x - minX, 0.0) / friction.referenceLength, MIN_REYNOLDS)
  }

  /** Why the friction on a panel is refused: the flight condition first, then, on sheared panels, the coefficient. */
  function Refusal(norm: Vector3 -> real, friction: Friction, f: Flow, minX: real, facet: Facet): Option<LoadError>
    requires friction.referenceLength != 0.0
  {
    if f.reynoldsLength <= 0.0 then Some(BadReynolds)
    else if norm(Tangent(f, facet.normal)) <= 0.0 then None
    else
      match Coefficient(friction, f.mach, LocalReynolds(friction, f, minX, facet))
      case Ok(_) => None
      case Err(error) => Some(error)
  }

  function FrictionPush(friction: Friction, f: Flow, minX: real, facet: Facet): real
    requires friction.referenceLength != 0.0
  {
    f.dynamicPressure * friction.correlation(f.mach, LocalReynolds(friction, f, minX, facet)) * facet.area
  }

  function PushPerLength(push: real, length: real): real
    requires length != 0.0
  {
    -push * (1.0 / length)
  }

  function FrictionForce(norm: Vector3 -> real, friction: Friction, f: Flow, minX: real, facet: Facet): Vector3
    requires friction.referenceLength != 0.0
  {
    var tangent := Tangent(f, facet.normal);
    var length := norm(tangent);
    if length <= 0.0 then ZERO else tangent.Times(PushPerLength(FrictionPush(friction, f, minX, facet), length))
  }

  /** Pressure and friction force on a panel that is not in shadow. */
  function PanelForce(norm: Vector3 -> real, p: Panels, f: Flow, facet: Facet): Vector3
    requires |p.geometry.vertices| > 0 && (p.friction.Some? ==> p.friction.value.referenceLength != 0.0)
  {
    var pressure := PressureForce(p.cpMax, f, facet);
    match p.friction
    case None => pressure
    case Some(friction) => pressure.Plus(FrictionForce(norm, friction, f, MinX(p.geometry.vertices), facet))
  }

  /** A panel carries load unless it faces away or, with a shadow mesh, its upstream ray is blocked. */
  ghost predicate Loaded(p: Panels, f: Flow, shadow: Option<Mesh>, facet: Facet)
    requires shadow.Some? ==> ValidMesh(shadow.value)
  {
    p.shadowing ==>
      && facet.normal.Dot(f.upstream) >= 0.0
      && (shadow.Some? ==> !Query(shadow.value, facet.centroid.Plus(f.upstream.Times(0.000000001)), f.upstream))
  }

  lemma NormalIsUnit(norm: Vector3 -> real, m: Mesh, i: nat)
    requires Euclidean(norm) && ValidMesh(m) && i < |m.triangles|
    ensures InRange(m, m.triangles[i]) && norm(AreaVector(m, m.triangles[i])) > 0.0
    ensures FacetOf(norm, m, i).area > 0.0
    ensures FacetOf(norm, m, i).normal.Dot(FacetOf(norm, m, i).normal) == 1.0
  {
    hide VertexOf, AreaVector;
    assert GoodTriangle(m, m.triangles[i]);
    var a := AreaVector(m, m.triangles[i]);
    NormIsZero(a, norm(a));
    Normalise(a, norm(a));
  }

  lemma Normalise(a: Vector3, n: real)
    requires n > 0.0 && n * n == a.Dot(a)
    ensures a.Times(1.0 / n).Dot(a.Times(1.0 / n)) == 1.0
  {
    var k := 1.0 / n;
    assert k * n == 1.0;
    ScaledDot(a, k);
    assert (k * n) * (k * n) == (k * k) * (n * n);
  }

  lemma ScaledDot(a: Vector3, k: real)
    ensures a.Times(k).Dot(a.Times(k)) == (k * k) * a.Dot(a)
  {
    SquareOfProduct(k, a.x);
    SquareOfProduct(k, a.y);
    SquareOfProduct(k, a.z);
  }

  // ---------------------------------------------------------------- integration

  const NOTHING := Load(ZERO, ZERO)

  function MomentAbout(cg: Vector3, centroid: Vector3, force: Vector3): Vector3 {
    centroid.Minus(cg).Cross(force)
  }

  /** Everything the integration is given, with the shadow mesh whose tree answers the ray queries. */
  datatype Problem = Problem(norm: Vector3 -> real, panels: Panels, flow: Flow, shadow: Option<Mesh>)

  ghost predicate Proper(b: Problem) {
    && Euclidean(b.norm) && ProperPanels(b.panels) && ProperFlow(b.flow)
    && (b.shadow.Some? ==> ValidMesh(b.shadow.value))
  }

  function PanelFacet(b: Problem, i: nat): Facet
    requires Proper(b) && i < |b.panels.geometry.triangles|
  {
    NormalIsUnit(b.norm, b.panels.geometry, i);
    FacetOf(b.norm, b.panels.geometry, i)
  }

  ghost predicate IsLoaded(b: Problem, i: nat)
    requires Proper(b) && i < |b.panels.geometry.triangles|
  {
    Loaded(b.panels, b.flow, b.shadow, PanelFacet(b, i))
  }

  /** Force of panel `i`, zero when it carries no load. */
  ghost function ForceOf(b: Problem, i: nat): Vector3
    requires Proper(b) && i < |b.panels.geometry.triangles|
  {
    if IsLoaded(b, i) then PanelForce(b.norm, b.panels, b.flow, PanelFacet(b, i)) else ZERO
  }

  ghost function LoadOf(b: Problem, cg: Vector3, i: nat): Load
    requires Proper(b) && i < |b.panels.geometry.triangles|
  {
    if IsLoaded(b, i) then Load(ForceOf(b, i), MomentAbout(cg, PanelFacet(b, i).centroid, ForceOf(b, i))) else NOTHING
  }

  ghost function Total(b: Problem, cg: Vector3, n: nat): Load
    requires Proper(b) && n <= |b.panels.geometry.triangles|
  {
    if n == 0 then NOTHING else Total(b, cg, n - 1).Plus(LoadOf(b, cg, n - 1))
  }

  // ---------------------------------------------------------------- axial bins

  ghost predicate ValidStations(s: seq<real>) {
    |s| != 1 && Increasing(s)
  }

  predicate InBin(s: seq<real>, k: nat, x: real)
    requires k + 1 < |s|
  {
    x >= s[k] && (x < s[k + 1] || (k + 2 == |s| && x <= s[k + 1]))
  }

  function BinFrom(s: seq<real>, x: real, k: nat): (r: Option<nat>)
    requires |s| >= 2 && k <= |s| - 1
    ensures r.Some? ==> k <= r.value < |s| - 1 && InBin(s, r.value, x)
                        && forall j :: k <= j < r.value ==> !InBin(s, j, x)
    ensures r.None? ==> forall j :: k <= j < |s| - 1 ==> !InBin(s, j, x)
    decreases |s| - k
  {
    if k == |s| - 1 then None else if InBin(s, k, x) then Some(k) else BinFrom(s, x, k + 1)
  }

  /** The first bin that takes `x`. */
  function AxialStationBin(s: seq<real>, x: real): (r: Option<nat>)
    ensures r.Some? ==> r.value + 1 < |s| && InBin(s, r.value, x) && forall j :: 0 <= j < r.value ==> !InBin(s, j, x)
    ensures r.None? ==> forall j :: 0 <= j < |s| - 1 ==> !InBin(s, j, x)
  {
    if |s| < 2 then None else BinFrom(s, x, 0)
  }

  /** Increasing stations put every covered coordinate in exactly one bin, and no other in any. */
  lemma BinIsUnique(s: seq<real>, x: real)
    requires ValidStations(s) && |s| >= 2
    ensures AxialStationBin(s, x).Some? <==> s[0] <= x <= s[|s| - 1]
    ensures forall k :: 0 <= k < |s| - 1 ==> (InBin(s, k, x) <==> AxialStationBin(s, x) == Some(k))
  {
    if s[0] <= x <= s[|s| - 1] {
      SomeBin(s, x, |s| - 1);
    }
    if AxialStationBin(s, x).Some? {
      var b := AxialStationBin(s, x).value;
      NotDecreasing(s, 0, b);
      NotDecreasing(s, b + 1, |s| - 1);
    }
    forall j, k | 0 <= j < k < |s| - 1
      ensures !(InBin(s, j, x) && InBin(s, k, x))
    {
      NotDecreasing(s, j + 1, k);
    }
  }

  /** A station belongs to the bin that it starts; the last one to the bin that it ends. */
  lemma StationStartsBin(s: seq<real>, k: nat)
    requires ValidStations(s) && k < |s|
    ensures AxialStationBin(s, s[k]) == Some(if k < |s| - 1 then k else k - 1)
  {
    if k < |s| - 1 {
      NotDecreasing(s, 0, k);
      NotDecreasing(s, k, |s| - 1);
      BinIsUnique(s, s[k]);
      IncreasingOrder(s, k, k + 1);
    } else {
      IncreasingOrder(s, k - 1, k);
      NotDecreasing(s, 0, k);
      BinIsUnique(s, s[k]);
    }
  }

  lemma NotDecreasing(s: seq<real>, i: nat, j: nat)
    requires Increasing(s) && i <= j < |s|
    ensures s[i] <= s[j]
  {
    if i < j {
      IncreasingOrder(s, i, j);
    }
  }

  lemma {:induction false} SomeBin(s: seq<real>, x: real, k: nat)
    requires ValidStations(s) && |s| >= 2 && 0 < k < |s| && s[0] <= x
    requires x < s[k] || (k == |s| - 1 && x <= s[k])
    ensures exists j :: 0 <= j < |s| - 1 && InBin(s, j, x)
    decreases k
  {
    if x >= s[k - 1] {
      assert InBin(s, k - 1, x);
    } else {
      SomeBin(s, x, k - 1);
    }
  }

  /** Loads of the panels before `n` whose centroid falls into bin `k`. */
  ghost function BinLoad(b: Problem, cg: Vector3, s: seq<real>, k: nat, n: nat): Load
    requires Proper(b) && n <= |b.panels.geometry.triangles|
  {
    if n == 0 then NOTHING
    else
      var rest := BinLoad(b, cg, s, k, n - 1);
      if IsLoaded(b, n - 1) && AxialStationBin(s, PanelFacet(b, n - 1).centroid.x) == Some(k)
      then rest.Plus(LoadOf(b, cg, n - 1)) else rest
  }

  function BinCount(s: seq<real>): nat {
    if |s| < 2 then 0 else |s| - 1
  }

  ghost function BinLoads(b: Problem, cg: Vector3, s: seq<real>, n: nat): (r: seq<Load>)
    requires Proper(b) && n <= |b.panels.geometry.triangles|
    ensures |r| == BinCount(s) && forall k :: 0 <= k < |r| ==> r[k] == BinLoad(b, cg, s, k, n)
  {
    seq(BinCount(s), k requires 0 <= k => BinLoad(b, cg, s, k, n))
  }

  ghost function SumLoads(s: seq<Load>): Load {
    if |s| == 0 then NOTHING else SumLoads(s[..|s| - 1]).Plus(s[|s| - 1])
  }

  lemma {:induction false} SumUpdate(s: seq<Load>, k: nat, l: Load)
    requires k < |s|
    ensures SumLoads(s[k := s[k].Plus(l)]) == SumLoads(s).Plus(l)
  {
    var z := |s| - 1;
    var t := s[k := s[k].Plus(l)];
    if k == z {
      assert t[..z] == s[..z];
    } else {
      assert t[..z] == s[..z][k := s[..z][k].Plus(l)];
      SumUpdate(s[..z], k, l);
    }
  }

  lemma {:induction false} SumNothing(n: nat)
    ensures SumLoads(seq(n, _ => NOTHING)) == NOTHING
  {
    if n > 0 {
      assert seq(n, _ => NOTHING)[..n - 1] == seq(n - 1, _ => NOTHING);
      SumNothing(n - 1);
    }
  }

  /**
   * Conservation: when the stations cover the centroids of all loaded panels, the bin forces and
   * moments add up to the totals.
   */
  lemma {:induction false} BinsConserve(b: Problem, cg: Vector3, s: seq<real>, n: nat)
    requires Proper(b) && n <= |b.panels.geometry.triangles| && ValidStations(s) && |s| >= 2
    requires forall i :: 0 <= i < n && IsLoaded(b, i) ==> s[0] <= PanelFacet(b, i).centroid.x <= s[|s| - 1]
    ensures SumLoads(BinLoads(b, cg, s, n)) == Total(b, cg, n)
  {
    hide Proper, IsLoaded, PanelFacet, ForceOf, AxialStationBin, ValidStations, InBin;
    if n == 0 {
      SumNothing(BinCount(s));
      assert BinLoads(b, cg, s, 0) == seq(BinCount(s), _ => NOTHING);
    } else {
      BinsConserve(b, cg, s, n - 1);
      var before, after := BinLoads(b, cg, s, n - 1), BinLoads(b, cg, s, n);
      var l := LoadOf(b, cg, n - 1);
      if IsLoaded(b, n - 1) {
        BinIsUnique(s, PanelFacet(b, n - 1).centroid.x);
        var k := AxialStationBin(s, PanelFacet(b, n - 1).centroid.x).value;
        assert after == before[k := before[k].Plus(l)];
        SumUpdate(before, k, l);
      } else {
        assert after == before;
        NothingAdds(Total(b, cg, n - 1));
      }
    }
  }

  lemma NothingAdds(l: Load)
    ensures l.Plus(NOTHING) == l
  {
  }

  // ---------------------------------------------------------------- moments about two points

  lemma CrossShift(p: Vector3, a: Vector3, c: Vector3, f: Vector3)
    ensures c.Minus(a).Cross(f).Minus(c.Minus(p).Cross(f)) == p.Minus(a).Cross(f)
  {
  }

  lemma CrossPlus(a: Vector3, f: Vector3, g: Vector3)
    ensures a.Cross(f.Plus(g)) == a.Cross(f).Plus(a.Cross(g))
  {
  }

  lemma CrossZero(a: Vector3)
    ensures a.Cross(ZERO) == ZERO
  {
  }

  lemma Rearrange(m1: Vector3, m2: Vector3, l1: Vector3, l2: Vector3, t: Vector3, u: Vector3)
    requires m1.Minus(m2) == t && l1.Minus(l2) == u
    ensures m1.Plus(l1).Minus(m2.Plus(l2)) == t.Plus(u)
  {
  }

  /** The force does not depend on the reference point; the moment shifts by the offset times the force. */
  lemma {:induction false} MomentShift(b: Problem, cg1: Vector3, cg2: Vector3, n: nat)
    requires Proper(b) && n <= |b.panels.geometry.triangles|
    ensures Total(b, cg1, n).force == Total(b, cg2, n).force
    ensures Total(b, cg1, n).moment.Minus(Total(b, cg2, n).moment) == cg2.Minus(cg1).Cross(Total(b, cg1, n).force)
  {
    hide Proper, IsLoaded, PanelFacet, ForceOf, Vector3.Cross, Vector3.Minus;
    var offset := cg2.Minus(cg1);
    if n == 0 {
      CrossZero(offset);
      assert ZERO.Minus(ZERO) == ZERO by { SelfMinus(ZERO); }
    } else {
      MomentShift(b, cg1, cg2, n - 1);
      var t1, t2, l1, l2 := Total(b, cg1, n - 1), Total(b, cg2, n - 1), LoadOf(b, cg1, n - 1), LoadOf(b, cg2, n - 1);
      LoadShift(b, cg1, cg2, n - 1);
      CrossPlus(offset, t1.force, l1.force);
      Rearrange(t1.moment, t2.moment, l1.moment, l2.moment, offset.Cross(t1.force), offset.Cross(l1.force));
    }
  }

  lemma SelfMinus(a: Vector3)
    ensures a.Minus(a) == ZERO
  {
  }

  lemma LoadShift(b: Problem, cg1: Vector3, cg2: Vector3, i: nat)
    requires Proper(b) && i < |b.panels.geometry.triangles|
    ensures LoadOf(b, cg1, i).force == LoadOf(b, cg2, i).force
    ensures LoadOf(b, cg1, i).moment.Minus(LoadOf(b, cg2, i).moment) == cg2.Minus(cg1).Cross(LoadOf(b, cg1, i).force)
  {
    hide Proper, IsLoaded, PanelFacet, ForceOf, Vector3.Cross, Vector3.Minus;
    CrossZero(cg2.Minus(cg1));
    SelfMinus(ZERO);
    CrossShift(cg2, cg1, PanelFacet(b, i).centroid, ForceOf(b, i));
  }

  // ---------------------------------------------------------------- drag and shadowing

  lemma TimesDot(v: Vector3, k: real, u: Vector3)
    ensures v.Times(k).Dot(u) == k * v.Dot(u)
  {
    TimesProduct(k, v.x, u.x);
    TimesProduct(k, v.y, u.y);
    TimesProduct(k, v.z, u.z);
  }

  lemma TimesProduct(k: real, a: real, b: real)
    ensures (k * a) * b == k * (a * b)
  {
  }

  lemma PlusDot(a: Vector3, b: Vector3, u: Vector3)
    ensures a.Plus(b).Dot(u) == a.Dot(u) + b.Dot(u)
  {
  }

  lemma MinusDot(a: Vector3, b: Vector3, u: Vector3)
    ensures a.Minus(b).Dot(u) == a.Dot(u) - b.Dot(u)
  {
  }

  /** Pressure pushes downstream whichever way the panel faces. */
  lemma PressureIsDrag(cpMax: real, f: Flow, facet: Facet)
    requires cpMax >= 0.0 && f.dynamicPressure >= 0.0 && facet.area >= 0.0
    ensures PressureForce(cpMax, f, facet).Dot(f.upstream) <= 0.0
  {
    hide Vector3.Dot, Vector3.Times, PressurePush;
    var n, u := facet.normal, f.upstream;
    var c := n.Dot(u);
    var facing := if c >= 0.0 then n else n.Times(-1.0);
    TimesDot(n, -1.0, u);
    PressurePushes(cpMax, f, facet);
    var push := PressurePush(cpMax, f, facet);
    TimesDot(facing, -push, u);
    Opposed(push, facing.Dot(u));
  }

  lemma Opposed(a: real, b: real)
    requires a >= 0.0 && b >= 0.0
    ensures -a * b <= 0.0
  {
    NonNegativeProduct(a, b);
    assert -a * b == -(a * b);
  }

  lemma PressurePushes(cpMax: real, f: Flow, facet: Facet)
    requires cpMax >= 0.0 && f.dynamicPressure >= 0.0 && facet.area >= 0.0
    ensures PressurePush(cpMax, f, facet) >= 0.0
  {
    hide Vector3.Dot;
    var i := Abs(facet.normal.Dot(f.upstream));
    NonNegativeProduct(cpMax, i);
    NonNegativeProduct(cpMax * i, i);
    NonNegativeProduct(cpMax * i * i, f.dynamicPressure);
    NonNegativeProduct(cpMax * i * i * f.dynamicPressure, facet.area);
  }

  lemma FrictionPushes(friction: Friction, f: Flow, minX: real, facet: Facet)
    requires ProperFriction(friction) && f.dynamicPressure >= 0.0 && facet.area >= 0.0
    ensures FrictionPush(friction, f, minX, facet) >= 0.0
  {
    hide LocalReynolds;
    var coefficient := friction.correlation(f.mach, LocalReynolds(friction, f, minX, facet));
    NonNegativeProduct(f.dynamicPressure, coefficient);
    NonNegativeProduct(f.dynamicPressure * coefficient, facet.area);
  }

  /** The tangent's upstream part is its squared length. */
  lemma TangentUpstream(f: Flow, n: Vector3)
    requires ProperFlow(f) && n.Dot(n) == 1.0
    ensures Tangent(f, n).Dot(f.upstream) == Tangent(f, n).Dot(Tangent(f, n))
  {
    hide Vector3.Dot, Vector3.Times, Vector3.Minus;
    var u, t := f.upstream, Tangent(f, n);
    var c := n.Dot(u);
    var a := n.Times(c);
    MinusDot(u, a, u);
    TimesDot(n, c, u);
    MinusDot(u, a, t);
    DotFlip(u, t);
    TimesDot(n, c, t);
    DotFlip(n, t);
    MinusDot(u, a, n);
    DotFlip(u, n);
    TimesDot(n, c, n);
    assert n.Dot(t) == c - c * 1.0;
  }

  lemma DotFlip(a: Vector3, b: Vector3)
    ensures a.Dot(b) == b.Dot(a)
  {
  }

  lemma FrictionIsDrag(norm: Vector3 -> real, friction: Friction, f: Flow, minX: real, facet: Facet)
    requires Euclidean(norm) && ProperFriction(friction) && ProperFlow(f)
    requires f.dynamicPressure >= 0.0 && facet.area >= 0.0 && facet.normal.Dot(facet.normal) == 1.0
    ensures FrictionForce(norm, friction, f, minX, facet).Dot(f.upstream) <= 0.0
  {
    hide Vector3.Dot, Vector3.Times, Tangent, FrictionPush, PushPerLength;
    var t := Tangent(f, facet.normal);
    var length := norm(t);
    if length <= 0.0 {
      ZeroDot(f.upstream);
    } else {
      var push := FrictionPush(friction, f, minX, facet);
      FrictionPushes(friction, f, minX, facet);
      TangentUpstream(f, facet.normal);
      assert IsNorm(length, t);
      NonNegativeProduct(length, length);
      ScaledDownstream(t, PushPerLength(push, length), push, length, f.upstream);
    }
  }

  lemma ZeroDot(u: Vector3)
    ensures ZERO.Dot(u) == 0.0
  {
  }

  lemma ScaledDownstream(t: Vector3, k: real, push: real, length: real, u: Vector3)
    requires push >= 0.0 && length > 0.0 && k == PushPerLength(push, length) && t.Dot(u) >= 0.0
    ensures t.Times(k).Dot(u) <= 0.0
  {
    hide Vector3.Dot, Vector3.Times;
    Opposed(push, 1.0 / length);
    TimesDot(t, k, u);
    NonNegativeProduct(-k, t.Dot(u));
  }

  lemma ForceIsDrag(b: Problem, i: nat)
    requires Proper(b) && i < |b.panels.geometry.triangles|
    requires b.panels.cpMax >= 0.0 && b.flow.dynamicPressure >= 0.0
    ensures ForceOf(b, i).Dot(b.flow.upstream) <= 0.0
  {
    hide Vector3.Dot, Vector3.Plus, PressureForce, FrictionForce, FacetOf, IsLoaded, Euclidean, GoodTriangle;
    NormalIsUnit(b.norm, b.panels.geometry, i);
    var facet := PanelFacet(b, i);
    ZeroDot(b.flow.upstream);
    PressureIsDrag(b.panels.cpMax, b.flow, facet);
    if b.panels.friction.Some? {
      var minX := MinX(b.panels.geometry.vertices);
      FrictionIsDrag(b.norm, b.panels.friction.value, b.flow, minX, facet);
      PlusDot(PressureForce(b.panels.cpMax, b.flow, facet),
              FrictionForce(b.norm, b.panels.friction.value, b.flow, minX, facet), b.flow.upstream);
    }
  }

  /** The total force never pushes upstream. */
  lemma {:induction false} TotalIsDrag(b: Problem, cg: Vector3, n: nat)
    requires Proper(b) && n <= |b.panels.geometry.triangles|
    requires b.panels.cpMax >= 0.0 && b.flow.dynamicPressure >= 0.0
    ensures Total(b, cg, n).force.Dot(b.flow.upstream) <= 0.0
  {
    hide Proper, ForceOf, PanelFacet, Vector3.Dot, Vector3.Plus;
    ZeroDot(b.flow.upstream);
    if n > 0 {
      TotalIsDrag(b, cg, n - 1);
      ForceIsDrag(b, n - 1);
      LoadForce(b, cg, n - 1);
      PlusDot(Total(b, cg, n - 1).force, LoadOf(b, cg, n - 1).force, b.flow.upstream);
    }
  }

  lemma LoadForce(b: Problem, cg: Vector3, i: nat)
    requires Proper(b) && i < |b.panels.geometry.triangles|
    ensures LoadOf(b, cg, i).force == ForceOf(b, i)
  {
  }

  /** Shadowing by a mesh only takes panels away, so it never adds force against the stream. */
  lemma {:induction false} ShadowReducesDrag(b: Problem, cg: Vector3, n: nat)
    requires Proper(b) && n <= |b.panels.geometry.triangles|
    requires b.panels.cpMax >= 0.0 && b.flow.dynamicPressure >= 0.0
    ensures Proper(b.(shadow := None))
    ensures Total(b, cg, n).force.Dot(b.flow.upstream) >= Total(b.(shadow := None), cg, n).force.Dot(b.flow.upstream)
  {
    hide ForceOf, PanelFacet, Vector3.Dot, Vector3.Plus, ValidMesh, Euclidean, ProperFriction, ProperFlow;
    var open := b.(shadow := None);
    if n > 0 {
      ShadowReducesDrag(b, cg, n - 1);
      ShadowedForce(b, n - 1);
      LoadForce(b, cg, n - 1);
      LoadForce(open, cg, n - 1);
      PlusDot(Total(b, cg, n - 1).force, LoadOf(b, cg, n - 1).force, b.flow.upstream);
      PlusDot(Total(open, cg, n - 1).force, LoadOf(open, cg, n - 1).force, b.flow.upstream);
    }
  }

  lemma ShadowedForce(b: Problem, i: nat)
    requires Proper(b) && Proper(b.(shadow := None)) && i < |b.panels.geometry.triangles|
    requires b.panels.cpMax >= 0.0 && b.flow.dynamicPressure >= 0.0
    ensures ForceOf(b, i).Dot(b.flow.upstream) >= ForceOf(b.(shadow := None), i).Dot(b.flow.upstream)
  {
    hide Vector3.Dot, Query, PanelForce, FacetOf, Proper;
    var open := b.(shadow := None);
    ForceIsDrag(open, i);
    ZeroDot(b.flow.upstream);
  }

  // ---------------------------------------------------------------- the integration loop

  method ValidateStations(s: seq<real>) returns (ok: bool)
    ensures ok <==> ValidStations(s)
  {
    if |s| == 0 {
      return true;
    }
    if |s| < 2 {
      return false;
    }
    var previous := s[0];
    for i := 1 to |s|
      invariant previous == s[i - 1]
      invariant forall j :: 0 < j < i ==> s[j - 1] < s[j]
    {
      if s[i] <= previous {
        assert !(s[i - 1] < s[i]);
        return false;
      }
      previous := s[i];
    }
    return true;
  }

  /** The ray query against the shadow tree from just upstream of a centroid. */
  method Occluded(bvh: PanelMeshBvh, centroid: Vector3, upstream: Vector3) returns (blocked: bool)
    requires bvh.Valid() && ValidMesh(bvh.mesh)
    ensures blocked == Query(bvh.mesh, centroid.Plus(upstream.Times(0.000000001)), upstream)
  {
    hide Query;
    var answer := AskTree(bvh, centroid.Plus(upstream.Times(0.000000001)), upstream);
    blocked := answer.found;
  }

  ghost function ShadowMesh(bvh: PanelMeshBvh?): Option<Mesh> {
    if bvh == null then None else Some(bvh.mesh)
  }

  /** Some panel carries load. */
  ghost predicate AnyLoaded(b: Problem)
    requires Proper(b)
  {
    exists i :: 0 <= i < |b.panels.geometry.triangles| && IsLoaded(b, i)
  }

  /** The panel carries load and the stream has a part along it. */
  ghost predicate IsSheared(b: Problem, i: nat)
    requires Proper(b) && i < |b.panels.geometry.triangles|
  {
    IsLoaded(b, i) && b.norm(Tangent(b.flow, PanelFacet(b, i).normal)) > 0.0
  }

  /** Friction refuses a loaded panel for a Reynolds number, or a sheared one for a negative Mach number. */
  ghost function RefusalOf(b: Problem, i: nat): Option<LoadError>
    requires Proper(b) && i < |b.panels.geometry.triangles|
  {
    if b.panels.friction.None? then None
    else if b.flow.reynoldsLength <= 0.0 then Some(BadReynolds)
    else if b.flow.mach < 0.0 && IsSheared(b, i) then Some(OutsideCorrelation) else None
  }

  lemma RefusalMeaning(b: Problem, i: nat)
    requires Proper(b) && i < |b.panels.geometry.triangles| && b.panels.friction.Some? && IsLoaded(b, i)
    ensures Refusal(b.norm, b.panels.friction.value, b.flow, MinX(b.panels.geometry.vertices), PanelFacet(b, i))
            == RefusalOf(b, i)
  {
    hide IsLoaded, FacetOf, Tangent, LocalReynolds, MinX, Coefficient, Euclidean, GoodTriangle;
    var friction, facet := b.panels.friction.value, PanelFacet(b, i);
    var reynolds := LocalReynolds(friction, b.flow, MinX(b.panels.geometry.vertices), facet);
    RefusesNegativeMach(friction, b.flow.mach, reynolds);
    OnlyRefusal(friction, b.flow.mach, reynolds);
  }

  lemma OnlyRefusal(friction: Friction, mach: real, reynolds: real)
    ensures Coefficient(friction, mach, reynolds).Err? ==>
              Coefficient(friction, mach, reynolds).error == OutsideCorrelation
  {
  }

  ghost predicate AnySheared(b: Problem)
    requires Proper(b)
  {
    exists i :: 0 <= i < |b.panels.geometry.triangles| && IsSheared(b, i)
  }

  /**
   * Integrates pressure and friction over the panels, skipping shadowed ones, and sorts the loads
   * into the axial bins.
   */
  method SolveAboutCg(norm: Vector3 -> real, p: Panels, f: Flow, cg: Vector3, stations: seq<real>, bvh: PanelMeshBvh?)
    returns (r: Outcome)
    requires Proper(Problem(norm, p, f, ShadowMesh(bvh)))
    requires bvh != null ==> bvh.Valid()
    ensures r.Solved? ==>
              var b := Problem(norm, p, f, ShadowMesh(bvh));
              var n := |p.geometry.triangles|;
              && r.solution.total == Total(b, cg, n)
              && r.solution.bins == BinLoads(b, cg, stations, n)
    ensures r == Failed(BadPressure) <==> f.dynamicPressure < 0.0
    ensures r == Failed(BadStations) <==> f.dynamicPressure >= 0.0 && !ValidStations(stations)
    ensures r == Failed(BadPressureCoefficient) <==>
              f.dynamicPressure >= 0.0 && ValidStations(stations) && p.cpMax < 0.0
    ensures r == Failed(BadReynolds) <==>
              && f.dynamicPressure >= 0.0 && ValidStations(stations) && p.cpMax >= 0.0
              && p.friction.Some? && f.reynoldsLength <= 0.0 && AnyLoaded(Problem(norm, p, f, ShadowMesh(bvh)))
    ensures r == Failed(OutsideCorrelation) <==>
              && f.dynamicPressure >= 0.0 && ValidStations(stations) && p.cpMax >= 0.0
              && p.friction.Some? && f.reynoldsLength > 0.0 && f.mach < 0.0
              && AnySheared(Problem(norm, p, f, ShadowMesh(bvh)))
  {
    hide Proper, IsLoaded, IsSheared, PanelFacet, ForceOf, ValidStations, PanelMeshBvh.Valid, Refusal;
    if f.dynamicPressure < 0.0 {
      return Failed(BadPressure);
    }
    var ok := ValidateStations(stations);
    if !ok {
      return Failed(BadStations);
    }
    if p.cpMax < 0.0 {
      return Failed(BadPressureCoefficient);
    }
    ghost var b := Problem(norm, p, f, ShadowMesh(bvh));
    var total := NOTHING;
    var bins := seq(BinCount(stations), _ => NOTHING);
    for i := 0 to |p.geometry.triangles|
      invariant p.friction.Some? && f.reynoldsLength <= 0.0 ==> forall j :: 0 <= j < i ==> !IsLoaded(b, j)
      invariant p.friction.Some? && f.reynoldsLength > 0.0 && f.mach < 0.0 ==>
                  forall j :: 0 <= j < i ==> !IsSheared(b, j)
      invariant total == Total(b, cg, i)
      invariant bins == BinLoads(b, cg, stations, i)
    {
      var loaded, refusal, force, centroid := IntegratePanel(norm, p, f, bvh, i);
      if loaded {
        if refusal.Some? {
          return Failed(refusal.value);
        }
        var load := Load(force, MomentAbout(cg, centroid, force));
        total := total.Plus(load);
        var bin := AxialStationBin(stations, centroid.x);
        if bin.Some? {
          bins := bins[bin.value := bins[bin.value].Plus(load)];
        }
      } else {
        NothingAdds(total);
      }
    }
    return Solved(Solution(total, bins));
  }

  /** One pass of the loop body: does the panel carry load, and which. */
  method IntegratePanel(norm: Vector3 -> real, p: Panels, f: Flow, bvh: PanelMeshBvh?, i: nat)
    returns (loaded: bool, refusal: Option<LoadError>, force: Vector3, centroid: Vector3)
    requires Proper(Problem(norm, p, f, ShadowMesh(bvh))) && i < |p.geometry.triangles|
    requires bvh != null ==> bvh.Valid()
    ensures var b := Problem(norm, p, f, ShadowMesh(bvh));
            && loaded == IsLoaded(b, i) && centroid == PanelFacet(b, i).centroid
            && (loaded ==> force == ForceOf(b, i) && refusal == RefusalOf(b, i)) && (IsSheared(b, i) ==> loaded)
  {
    hide Query, FacetOf, PanelForce, Refusal, PanelMeshBvh.Valid, Euclidean, GoodTriangle, Vector3.Dot, Vector3.Times,
         Vector3.Plus;
    ghost var b := Problem(norm, p, f, ShadowMesh(bvh));
    NormalIsUnit(norm, p.geometry, i);
    var facet := FacetOf(norm, p.geometry, i);
    refusal, centroid, force := None, facet.centroid, ZERO;
    if p.shadowing && facet.normal.Dot(f.upstream) < 0.0 {
      return false, refusal, force, centroid;
    }
    if p.shadowing && bvh != null {
      var blocked := Occluded(bvh, facet.centroid, f.upstream);
      if blocked {
        return false, refusal, force, centroid;
      }
    }
    if p.friction.Some? {
      refusal := Refusal(norm, p.friction.value, f, MinX(p.geometry.vertices), facet);
      RefusalMeaning(b, i);
    }
    return true, refusal, PanelForce(norm, p, f, facet), centroid;
  }
}
