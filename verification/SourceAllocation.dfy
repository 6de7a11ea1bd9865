/** Distributing acoustic power over sources along the plume: validation, normalisation, axial curves. */
module SourceAllocation {
  import opened Wrappers
  import opened Reals
  import opened LinearAlgebra
  import opened Sorting
  import opened Directivity

  const TOLERANCE: real := 0.000000000001

  datatype Source = Source(axial: real, power: real)

  type Allocation = seq<Source>

  function ByAxial(): (Source, Source) -> bool {
    (a: Source, b: Source) => a.axial <= b.axial
  }

  function Powers(sources: seq<Source>): (r: Vec)
    ensures |r| == |sources| && forall i :: 0 <= i < |r| ==> r[i] == sources[i].power
  {
    seq(|sources|, i requires 0 <= i < |sources| => sources[i].power)
  }

  predicate SourceInRange(s: Source) {
    s.axial >= 0.0 && 0.0 <= s.power <= 1.0
  }

  predicate AxialIncreases(sources: seq<Source>) {
    forall i :: 0 < i < |sources| ==> sources[i - 1].axial < sources[i].axial
  }

  predicate SumsToOne(total: real) {
    -TOLERANCE <= total - 1.0 <= TOLERANCE
  }

  predicate ValidAllocation(a: Allocation) {
    |a| > 0 && AxialIncreases(a) && (forall i :: 0 <= i < |a| ==> SourceInRange(a[i])) && SumsToOne(Sum(Powers(a)))
  }

  /** What a caller can check before building: any order, but no two sources at the same place. */
  predicate Acceptable(sources: seq<Source>) {
    && |sources| > 0 && (forall i :: 0 <= i < |sources| ==> SourceInRange(sources[i]))
    && (forall i, j :: 0 <= i < j < |sources| ==> sources[i].axial != sources[j].axial)
    && SumsToOne(Sum(Powers(sources)))
  }

  // ---------------------------------------------------------------- sorting keeps the content

  lemma OrderIsTotal()
    ensures TotalOrder(ByAxial())
  {
  }

  lemma SumPowersFront(s: seq<Source>)
    requires |s| > 0
    ensures Sum(Powers(s)) == s[0].power + Sum(Powers(s[1..]))
  {
    SumFront(Powers(s));
    assert Powers(s)[1..] == Powers(s[1..]);
  }

  lemma {:induction false} InsertTotal(x: Source, s: seq<Source>)
    ensures Sum(Powers(Insert(x, s, ByAxial()))) == x.power + Sum(Powers(s))
  {
    hide Sum;
    var r := Insert(x, s, ByAxial());
    SumPowersFront(r);
    if |s| > 0 {
      SumPowersFront(s);
      if !ByAxial()(x, s[0]) {
        InsertTotal(x, s[1..]);
        assert r[1..] == Insert(x, s[1..], ByAxial());
      } else {
        assert r[1..] == s;
      }
    } else {
      assert r[1..] == s;
    }
  }

  lemma {:induction false} SortTotal(s: seq<Source>)
    ensures Sum(Powers(Sort(s, ByAxial()))) == Sum(Powers(s))
  {
    if |s| == 0 {
      assert Sort(s, ByAxial()) == s;
    } else {
      SortTotal(s[1..]);
      InsertTotal(s[0], Sort(s[1..], ByAxial()));
      SumPowersFront(s);
    }
  }

  /** Distinct positions, said of the multiset: no position carries more than one source. */
  lemma DistinctByMultiset(s: seq<Source>, t: seq<Source>)
    requires multiset(s) == multiset(t)
    requires forall i, j :: 0 <= i < j < |s| ==> s[i].axial != s[j].axial
    ensures forall i, j :: 0 <= i < j < |t| ==> t[i].axial != t[j].axial
  {
    forall i, j | 0 <= i < j < |t|
      ensures t[i].axial != t[j].axial
    {
      if t[i].axial == t[j].axial {
        assert t[i] in multiset(s) && t[j] in multiset(s);
        var p :| 0 <= p < |s| && s[p] == t[i];
        var q :| 0 <= q < |s| && s[q] == t[j];
        assert p == q;
        TwiceIn(t, i, j);
        OnceIn(s, p);
        assert false;
      }
    }
  }

  lemma TwiceIn(t: seq<Source>, i: nat, j: nat)
    requires i < j < |t| && t[i] == t[j]
    ensures multiset(t)[t[i]] >= 2
  {
    assert t == t[..j] + [t[j]] + t[j + 1..];
    assert t[i] in t[..j];
  }

  lemma OnceIn(s: seq<Source>, p: nat)
    requires p < |s| && forall i, j :: 0 <= i < j < |s| ==> s[i].axial != s[j].axial
    ensures multiset(s)[s[p]] == 1
  {
    assert s == s[..p] + [s[p]] + s[p + 1..];
    assert s[p] !in s[..p] && s[p] !in s[p + 1..];
  }

  lemma InRangeByMultiset(s: seq<Source>, t: seq<Source>)
    requires multiset(s) == multiset(t) && forall i :: 0 <= i < |s| ==> SourceInRange(s[i])
    ensures forall i :: 0 <= i < |t| ==> SourceInRange(t[i])
  {
    forall i | 0 <= i < |t|
      ensures SourceInRange(t[i])
    {
      assert t[i] in multiset(s);
    }
  }

  lemma IncreasingIsDistinct(s: seq<Source>, i: nat, j: nat)
    requires AxialIncreases(s) && i < j < |s|
    ensures s[i].axial < s[j].axial
  {
    var axials := seq(|s|, k requires 0 <= k < |s| => s[k].axial);
    IncreasingOrder(axials, i, j);
  }

  lemma SortedInOrder(sources: seq<Source>)
    ensures var s := Sort(sources, ByAxial()); forall i :: 0 < i < |s| ==> s[i - 1].axial <= s[i].axial
  {
    hide Sort;
    OrderIsTotal();
    SortSorted(sources, ByAxial());
    var s := Sort(sources, ByAxial());
    forall i | 0 < i < |s| ensures s[i - 1].axial <= s[i].axial {
      assert ByAxial()(s[i - 1], s[i]);
    }
  }

  lemma ValidIsAcceptable(s: seq<Source>, sources: seq<Source>)
    requires multiset(s) == multiset(sources) && |s| == |sources| && Sum(Powers(s)) == Sum(Powers(sources))
    requires ValidAllocation(s)
    ensures Acceptable(sources)
  {
    hide Sum, Powers;
    InRangeByMultiset(s, sources);
    forall i, j | 0 <= i < j < |s| ensures s[i].axial != s[j].axial {
      IncreasingIsDistinct(s, i, j);
    }
    DistinctByMultiset(s, sources);
  }

  lemma AcceptableIsValid(s: seq<Source>, sources: seq<Source>)
    requires multiset(s) == multiset(sources) && |s| == |sources| && Sum(Powers(s)) == Sum(Powers(sources))
    requires forall i :: 0 < i < |s| ==> s[i - 1].axial <= s[i].axial
    requires Acceptable(sources)
    ensures ValidAllocation(s)
  {
    hide Sum, Powers;
    InRangeByMultiset(sources, s);
    DistinctByMultiset(sources, s);
  }

  /** Validity after sorting is exactly acceptability of what was given. */
  lemma SortedIsValid(sources: seq<Source>)
    ensures ValidAllocation(Sort(sources, ByAxial())) <==> Acceptable(sources)
  {
    hide Sum, Powers, Sort, ValidAllocation, Acceptable, ByAxial;
    var s := Sort(sources, ByAxial());
    SortTotal(sources);
    SortedInOrder(sources);
    if ValidAllocation(s) {
      ValidIsAcceptable(s, sources);
    }
    if Acceptable(sources) {
      AcceptableIsValid(s, sources);
    }
  }

  // ---------------------------------------------------------------- construction

  /** The first fault from source `i` of the sorted list on; the total is checked last. */
  function SourcesFault(s: seq<Source>, i: nat): Option<AcousticsError>
    requires i <= |s|
    decreases |s| - i
  {
    if i == |s| then if SumsToOne(Sum(Powers(s))) then None else Some(InvalidFraction)
    else if s[i].axial < 0.0 then Some(Negative)
    else if s[i].power < 0.0 || s[i].power > 1.0 then Some(InvalidFraction)
    else if i > 0 && s[i].axial <= s[i - 1].axial then Some(NonIncreasing)
    else SourcesFault(s, i + 1)
  }

  function AllocationFault(sources: seq<Source>): Option<AcousticsError> {
    if |sources| == 0 then Some(Empty) else SourcesFault(Sort(sources, ByAxial()), 0)
  }

  /** Sorts by axial position and accepts exactly distinct, in-range sources whose powers sum to one. */
  method NewAllocation(sources: seq<Source>) returns (r: Result<Allocation, AcousticsError>)
    ensures r.Ok? <==> Acceptable(sources)
    ensures r.Ok? ==> ValidAllocation(r.value) && r.value == Sort(sources, ByAxial())
                      && multiset(r.value) == multiset(sources)
    ensures r.Err? ==> AllocationFault(sources) == Some(r.error)
  {
    hide Sum, Sort;
    SortedIsValid(sources);
    if |sources| == 0 {
      return Err(Empty);
    }
    var sorted := Sort(sources, ByAxial());
    var total := 0.0;
    NoPowers(sorted);
    for i := 0 to |sorted|
      invariant forall k :: 0 <= k < i ==> SourceInRange(sorted[k])
      invariant forall k :: 0 < k < i ==> sorted[k - 1].axial < sorted[k].axial
      invariant total == Sum(Powers(sorted)[..i]) && SourcesFault(sorted, 0) == SourcesFault(sorted, i)
    {
      if sorted[i].axial < 0.0 {
        return Err(Negative);
      }
      if sorted[i].power < 0.0 || sorted[i].power > 1.0 {
        return Err(InvalidFraction);
      }
      if i > 0 && sorted[i].axial <= sorted[i - 1].axial {
        return Err(NonIncreasing);
      }
      SumNext(Powers(sorted), i);
      total := total + sorted[i].power;
    }
    assert Powers(sorted)[..|sorted|] == Powers(sorted);
    if total - 1.0 > TOLERANCE || total - 1.0 < -TOLERANCE {
      return Err(InvalidFraction);
    }
    return Ok(sorted);
  }

  lemma NoPowers(s: seq<Source>)
    ensures Sum(Powers(s)[..0]) == 0.0
  {
  }

  lemma SumNext(x: Vec, i: nat)
    requires i < |x|
    ensures Sum(x[..i + 1]) == Sum(x[..i]) + x[i]
  {
    assert x[..i + 1][..i] == x[..i];
  }

  /** The sources with each weight divided by the total. */
  function Normalised(sources: seq<Source>, total: real): (r: seq<Source>)
    requires total != 0.0
    ensures |r| == |sources|
    ensures forall i :: 0 <= i < |r| ==> r[i] == Source(sources[i].axial, sources[i].power / total)
  {
    seq(|sources|, i requires 0 <= i < |sources| => Source(sources[i].axial, sources[i].power / total))
  }

  /** What normalisation asks of its weights. */
  predicate Weighable(sources: seq<Source>) {
    && (forall i :: 0 <= i < |sources| ==> sources[i].axial >= 0.0 && sources[i].power >= 0.0)
    && (forall i, j :: 0 <= i < j < |sources| ==> sources[i].axial != sources[j].axial)
    && Sum(Powers(sources)) > 0.0
  }

  lemma NormalisedSum(sources: seq<Source>)
    requires Sum(Powers(sources)) > 0.0
    ensures Sum(Powers(Normalised(sources, Sum(Powers(sources))))) == 1.0
  {
    var total := Sum(Powers(sources));
    assert (1.0 / total) * total == 1.0;
    NormalisedScales(sources, total, 1.0 / total);
  }

  lemma NormalisedScales(sources: seq<Source>, total: real, k: real)
    requires total > 0.0 && k * total == 1.0
    ensures Sum(Powers(Normalised(sources, total))) == k * Sum(Powers(sources))
  {
    hide Sum, Normalised, Powers;
    var n, scaled := Powers(Normalised(sources, total)), Scale(k, Powers(sources));
    forall i | 0 <= i < |sources|
      ensures n[i] == scaled[i]
    {
      OverTotal(sources[i].power, total, k);
    }
    assert n == scaled;
    SumScale(k, Powers(sources));
  }

  lemma OverTotal(w: real, total: real, k: real)
    requires total > 0.0 && k * total == 1.0
    ensures w / total == k * w
  {
    var q := w / total;
    assert q * total == w;
    assert (k * w) * total == (k * total) * w;
    Cancel(q, k * w, total);
  }

  lemma {:induction false} PartOfSum(x: Vec, i: nat)
    requires i < |x| && forall k :: 0 <= k < |x| ==> x[k] >= 0.0
    ensures x[i] <= Sum(x)
  {
    var k := |x| - 1;
    if i < k {
      PartOfSum(x[..k], i);
    } else {
      SumNonNegative(x[..k]);
    }
  }

  lemma NormalisedInRange(sources: seq<Source>)
    requires Sum(Powers(sources)) > 0.0
    requires forall i :: 0 <= i < |sources| ==> sources[i].power >= 0.0
    ensures forall s :: s in Normalised(sources, Sum(Powers(sources))) ==> 0.0 <= s.power <= 1.0
  {
    hide Sum;
    var total := Sum(Powers(sources));
    var n := Normalised(sources, total);
    forall i | 0 <= i < |n|
      ensures 0.0 <= n[i].power <= 1.0
    {
      PartOfSum(Powers(sources), i);
      FractionOf(sources[i].power, total);
    }
  }

  lemma FractionOf(w: real, total: real)
    requires 0.0 <= w <= total && total > 0.0
    ensures 0.0 <= w / total <= 1.0
    ensures w > 0.0 ==> w / total > 0.0
  {
    var q := w / total;
    assert q * total == w;
    if w > 0.0 {
      PositiveQuotient(w, total);
    }
    AtMostOne(q, total, w);
  }

  lemma NormalisedAcceptable(sources: seq<Source>)
    requires |sources| > 0 && Sum(Powers(sources)) > 0.0 && forall i :: 0 <= i < |sources| ==> sources[i].power >= 0.0
    ensures Acceptable(Normalised(sources, Sum(Powers(sources)))) <==> Weighable(sources)
    ensures Sum(Powers(Sort(Normalised(sources, Sum(Powers(sources))), ByAxial()))) == 1.0
  {
    hide Sum, Sort;
    var n := Normalised(sources, Sum(Powers(sources)));
    NormalisedSum(sources);
    NormalisedInRange(sources);
    SortTotal(n);
    assert forall i :: 0 <= i < |n| ==> n[i] in n;
  }

  /** Weights are checked before their total, and both before places. */
  function WeightsFault(sources: seq<Source>): Option<AcousticsError> {
    var total := Sum(Powers(sources));
    if |sources| == 0 then Some(Empty)
    else if exists i :: 0 <= i < |sources| && sources[i].power < 0.0 then Some(Negative)
    else if total <= 0.0 then Some(NonPositive)
    else AllocationFault(Normalised(sources, total))
  }

  /**
   * Normalising always succeeds on non-negative weights at distinct non-negative places with a positive
   * total: the fractions sum to exactly one, and the result is the normalised sources in axial order.
   */
  method NormalizedFromWeights(sources: seq<Source>) returns (r: Result<Allocation, AcousticsError>)
    ensures r.Ok? <==> Weighable(sources)
    ensures r.Ok? ==> ValidAllocation(r.value) && Sum(Powers(r.value)) == 1.0
                      && r.value == Sort(Normalised(sources, Sum(Powers(sources))), ByAxial())
    ensures r.Err? ==> WeightsFault(sources) == Some(r.error)
  {
    hide Sum, Sort, Normalised, Acceptable, ValidAllocation, SourcesFault;
    if |sources| == 0 {
      NoWeight(sources);
      return Err(Empty);
    }
    var total := 0.0;
    NoPowers(sources);
    for i := 0 to |sources|
      invariant forall k :: 0 <= k < i ==> sources[k].power >= 0.0
      invariant total == Sum(Powers(sources)[..i])
    {
      if sources[i].power < 0.0 {
        return Err(Negative);
      }
      SumNext(Powers(sources), i);
      total := total + sources[i].power;
    }
    assert Powers(sources)[..|sources|] == Powers(sources);
    if total <= 0.0 {
      return Err(NonPositive);
    }
    var n := Normalised(sources, total);
    NormalisedAcceptable(sources);
    r := NewAllocation(n);
  }

  lemma NoWeight(s: seq<Source>)
    requires |s| == 0
    ensures Sum(Powers(s)) == 0.0
  {
  }

  // ---------------------------------------------------------------- axial power curves

  datatype AxialPoint = AxialPoint(xOverCore: real, db: real)

  predicate ValidAxialCurve(points: seq<AxialPoint>) {
    && |points| >= 2 && (forall i :: 0 <= i < |points| ==> points[i].xOverCore > 0.0)
    && forall i :: 0 < i < |points| ==> points[i - 1].xOverCore < points[i].xOverCore
  }

  /** Half the distance between the neighbours, one-sided at the ends. */
  function TributaryWidth(points: seq<AxialPoint>, i: nat): real
    requires |points| >= 2 && i < |points|
  {
    if i == 0 then 0.5 * (points[1].xOverCore - points[0].xOverCore)
    else if i == |points| - 1 then 0.5 * (points[i].xOverCore - points[i - 1].xOverCore)
    else 0.5 * (points[i + 1].xOverCore - points[i - 1].xOverCore)
  }

  function Widths(points: seq<AxialPoint>): (r: Vec)
    requires |points| >= 2
    ensures |r| == |points| && forall i :: 0 <= i < |r| ==> r[i] == TributaryWidth(points, i)
  {
    seq(|points|, i requires 0 <= i < |points| => TributaryWidth(points, i))
  }

  lemma {:induction false} WidthsSoFar(points: seq<AxialPoint>, i: nat)
    requires |points| >= 2 && i < |points| - 1
    ensures Sum(Widths(points)[..i + 1]) == 0.5 * (points[i].xOverCore + points[i + 1].xOverCore) - points[0].xOverCore
  {
    hide Sum;
    SumNext(Widths(points), i);
    if i == 0 {
      NoSum(Widths(points)[..0]);
    } else {
      WidthsSoFar(points, i - 1);
    }
  }

  lemma NoSum(x: Vec)
    requires |x| == 0
    ensures Sum(x) == 0.0
  {
  }

  /** The tributary widths tile the curve: they sum to the distance between its ends. */
  lemma WidthsTelescope(points: seq<AxialPoint>)
    requires |points| >= 2
    ensures Sum(Widths(points)) == points[|points| - 1].xOverCore - points[0].xOverCore
  {
    var n := |points|;
    WidthsSoFar(points, n - 2);
    SumNext(Widths(points), n - 1);
    assert Widths(points)[..n] == Widths(points);
  }

  ghost predicate PowerOfTen(pow10: real -> real) {
    forall x: real :: pow10(x) > 0.0
  }

  /** Position and unnormalised power of one point. */
  function WeightedSource(points: seq<AxialPoint>, pow10: real -> real, core: real, i: nat): Source
    requires |points| >= 2 && i < |points|
  {
    Source(points[i].xOverCore * core, pow10(points[i].db / 10.0) * TributaryWidth(points, i))
  }

  function WeightedSources(points: seq<AxialPoint>, pow10: real -> real, core: real): (r: seq<Source>)
    requires |points| >= 2
    ensures |r| == |points| && forall i :: 0 <= i < |r| ==> r[i] == WeightedSource(points, pow10, core, i)
  {
    seq(|points|, i requires 0 <= i < |points| => WeightedSource(points, pow10, core, i))
  }

  /**
   * Every valid axial curve with a positive core length gives an allocation: one source per point in
   * the curve's own order, each with a positive fraction of the power, the fractions summing to one.
   */
  method ToSourceAllocation(points: seq<AxialPoint>, pow10: real -> real, core: real)
    returns (r: Result<Allocation, AcousticsError>)
    requires ValidAxialCurve(points) && PowerOfTen(pow10)
    ensures r.Ok? <==> core > 0.0
    ensures r.Ok? ==> ValidAllocation(r.value) && Sum(Powers(r.value)) == 1.0 && |r.value| == |points|
    ensures r.Ok? ==> var w := WeightedSources(points, pow10, core);
            && Sum(Powers(w)) > 0.0 && r.value == Normalised(w, Sum(Powers(w)))
            && forall i :: 0 <= i < |r.value| ==> r.value[i].power > 0.0
  {
    hide Sum, Sort, Normalised, WeightedSource;
    if core <= 0.0 {
      return Err(NonPositive);
    }
    var weighted: seq<Source> := [];
    for i := 0 to |points|
      invariant |weighted| == i && forall k :: 0 <= k < i ==> weighted[k] == WeightedSource(points, pow10, core, k)
    {
      weighted := weighted + [WeightedSource(points, pow10, core, i)];
    }
    assert weighted == WeightedSources(points, pow10, core);
    CurveIsWeighable(points, pow10, core);
    r := NormalizedFromWeights(weighted);
    AlreadySorted(Normalised(weighted, Sum(Powers(weighted))));
    PowersPositive(weighted);
  }

  lemma WeightedSourceGood(points: seq<AxialPoint>, pow10: real -> real, core: real, i: nat)
    requires ValidAxialCurve(points) && PowerOfTen(pow10) && core > 0.0 && i < |points|
    ensures var s := WeightedSource(points, pow10, core, i);
            s.axial > 0.0 && s.power > 0.0
    ensures i + 1 < |points| ==>
              WeightedSource(points, pow10, core, i).axial < WeightedSource(points, pow10, core, i + 1).axial
  {
    PositiveProduct(points[i].xOverCore, core);
    assert TributaryWidth(points, i) > 0.0 by {
      if 0 < i < |points| - 1 {
        assert points[i - 1].xOverCore < points[i].xOverCore < points[i + 1].xOverCore;
      } else if i == 0 {
        assert points[0].xOverCore < points[1].xOverCore;
      }
    }
    PositiveProduct(pow10(points[i].db / 10.0), TributaryWidth(points, i));
    if i + 1 < |points| {
      assert points[i].xOverCore < points[i + 1].xOverCore;
      PositiveProduct(points[i + 1].xOverCore - points[i].xOverCore, core);
    }
  }

  lemma CurveIsWeighable(points: seq<AxialPoint>, pow10: real -> real, core: real)
    requires ValidAxialCurve(points) && PowerOfTen(pow10) && core > 0.0
    ensures var w := WeightedSources(points, pow10, core);
            && Weighable(w) && AxialIncreases(w) && forall i :: 0 <= i < |w| ==> w[i].power > 0.0
  {
    hide Sum, WeightedSource;
    var w := WeightedSources(points, pow10, core);
    forall i | 0 <= i < |w|
      ensures w[i].axial > 0.0 && w[i].power > 0.0 && (i + 1 < |w| ==> w[i].axial < w[i + 1].axial)
    {
      WeightedSourceGood(points, pow10, core, i);
    }
    assert AxialIncreases(w) by {
      forall i | 0 < i < |w| ensures w[i - 1].axial < w[i].axial {
        assert (i - 1) + 1 < |w| ==> w[i - 1].axial < w[i - 1 + 1].axial;
      }
    }
    forall i, j | 0 <= i < j < |w| ensures w[i].axial != w[j].axial {
      IncreasingIsDistinct(w, i, j);
    }
    PartOfSum(Powers(w), 0);
  }

  lemma PowersPositive(w: seq<Source>)
    requires Sum(Powers(w)) > 0.0 && forall i :: 0 <= i < |w| ==> w[i].power > 0.0
    ensures forall i :: 0 <= i < |w| ==> Normalised(w, Sum(Powers(w)))[i].power > 0.0
  {
    hide Sum;
    forall i | 0 <= i < |w|
      ensures Normalised(w, Sum(Powers(w)))[i].power > 0.0
    {
      PositiveQuotient(w[i].power, Sum(Powers(w)));
    }
  }

  lemma InsertFirst(x: Source, s: seq<Source>)
    requires |s| > 0 ==> x.axial <= s[0].axial
    ensures Insert(x, s, ByAxial()) == [x] + s
  {
  }

  lemma SortStep(s: seq<Source>)
    requires |s| > 0
    ensures Sort(s, ByAxial()) == Insert(s[0], Sort(s[1..], ByAxial()), ByAxial())
  {
  }

  /** Sorting leaves an increasing sequence alone. */
  lemma {:induction false} AlreadySorted(s: seq<Source>)
    requires AxialIncreases(s)
    ensures Sort(s, ByAxial()) == s
  {
    hide Insert, Sort, ByAxial;
    if |s| == 0 {
      assert Sort(s, ByAxial()) == [];
    } else {
      AlreadySorted(s[1..]);
      InsertFirst(s[0], s[1..]);
      SortStep(s);
      assert s == [s[0]] + s[1..];
    }
  }
}
