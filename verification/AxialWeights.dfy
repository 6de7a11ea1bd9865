/** The sources of an axial power curve against its levels and its stations. */
module AxialWeights {
  import opened Reals
  import opened LinearAlgebra
  import opened SourceAllocation

  /** The allocation that the conversion returns. */
  ghost predicate FromCurve(a: Allocation, points: seq<AxialPoint>, pow10: real -> real, core: real) {
    && ValidAxialCurve(points) && PowerOfTen(pow10) && core > 0.0
    && var w := WeightedSources(points, pow10, core);
    Sum(Powers(w)) > 0.0 && a == Normalised(w, Sum(Powers(w)))
  }

  /** The part of the curve nearest to point `i`: between the midpoints to its neighbours, cut at the ends. */
  function Share(points: seq<AxialPoint>, i: nat): real
    requires |points| >= 2 && i < |points|
  {
    var left := if i == 0 then points[0].xOverCore else (points[i - 1].xOverCore + points[i].xOverCore) / 2.0;
    var right := if i == |points| - 1 then points[i].xOverCore
                 else (points[i].xOverCore + points[i + 1].xOverCore) / 2.0;
    right - left
  }

  lemma WidthIsShare(points: seq<AxialPoint>, i: nat)
    requires |points| >= 2 && i < |points|
    ensures TributaryWidth(points, i) == Share(points, i)
  {
  }

  lemma EqualWeights(points: seq<AxialPoint>, pow10: real -> real, core: real, db: real)
    requires ValidAxialCurve(points) && forall i :: 0 <= i < |points| ==> points[i].db == db
    ensures Powers(WeightedSources(points, pow10, core)) == Scale(pow10(db / 10.0), Widths(points))
  {
    forall i | 0 <= i < |points|
      ensures Powers(WeightedSources(points, pow10, core))[i] == Scale(pow10(db / 10.0), Widths(points))[i]
    {
    }
  }

  lemma CancelFactor(k: real, width: real, span: real, total: real, weight: real)
    requires k > 0.0 && span > 0.0 && total == k * span && weight == k * width
    ensures total > 0.0 && (weight / total) * span == width
  {
    PositiveProduct(k, span);
    var f := weight / total;
    assert f * total == weight;
    assert f * (k * span) == k * (f * span);
    Cancel(f * span, width, k);
  }

  /** On equal levels each fraction is the point's share of the curve, over the distance between its ends. */
  lemma EqualLevels(a: Allocation, points: seq<AxialPoint>, pow10: real -> real, core: real, i: nat)
    requires FromCurve(a, points, pow10, core) && i < |points|
    requires forall j, k :: 0 <= j < |points| && 0 <= k < |points| ==> points[j].db == points[k].db
    ensures i < |a| && a[i].power * (points[|points| - 1].xOverCore - points[0].xOverCore) == Share(points, i)
  {
    hide Sum, Share, TributaryWidth, Scale;
    var db := points[0].db;
    var k, w := pow10(db / 10.0), WeightedSources(points, pow10, core);
    EqualWeights(points, pow10, core, db);
    SumScale(k, Widths(points));
    WidthsTelescope(points);
    WidthIsShare(points, i);
    EndsApart(points);
    assert w[i].power == Powers(w)[i] == Scale(k, Widths(points))[i];
    CancelFactor(k, Widths(points)[i], points[|points| - 1].xOverCore - points[0].xOverCore, Sum(Powers(w)),
                 w[i].power);
  }

  lemma {:induction false} EndsApart(points: seq<AxialPoint>)
    requires ValidAxialCurve(points)
    ensures points[|points| - 1].xOverCore > points[0].xOverCore
    decreases |points|
  {
    if |points| > 2 {
      EndsApart(points[..|points| - 1]);
    }
  }

  /** Sources sit at the points' stations, scaled by the core length. */
  lemma SourcesAtStations(a: Allocation, points: seq<AxialPoint>, pow10: real -> real, core: real, i: nat)
    requires FromCurve(a, points, pow10, core) && i < |points|
    ensures i < |a| && a[i].axial == core * points[i].xOverCore
  {
    hide Sum;
  }

  ghost predicate Multiplies(pow10: real -> real, x: real, y: real) {
    pow10(x + y) == pow10(x) * pow10(y)
  }

  /** Ten decibels more multiply a point's weight by ten to the one, and leave its place alone. */
  lemma TenDecibels(points: seq<AxialPoint>, louder: seq<AxialPoint>, pow10: real -> real, core: real, i: nat)
    requires ValidAxialCurve(points) && i < |points|
    requires louder == points[i := AxialPoint(points[i].xOverCore, points[i].db + 10.0)]
    requires forall x: real, y: real :: Multiplies(pow10, x, y)
    ensures WeightedSource(louder, pow10, core, i).power == pow10(1.0) * WeightedSource(points, pow10, core, i).power
    ensures WeightedSource(louder, pow10, core, i).axial == WeightedSource(points, pow10, core, i).axial
    ensures forall j :: 0 <= j < |points| && j != i ==>
              WeightedSource(louder, pow10, core, j) == WeightedSource(points, pow10, core, j)
  {
    var x := points[i].db / 10.0;
    assert Multiplies(pow10, 1.0, x) && louder[i].db / 10.0 == 1.0 + x;
    var p, width := pow10(x), TributaryWidth(points, i);
    assert TributaryWidth(louder, i) == width;
    assert (pow10(1.0) * p) * width == pow10(1.0) * (p * width);
  }
}
