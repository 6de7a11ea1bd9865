/** What the directivity lookup returns: stored values at nodes, bilinear tables exactly, the nearest end outside. */
module DirectivityExactness {
  import opened Reals
  import opened Directivity

  lemma NearestInside(axis: seq<real>, x: real)
    requires |axis| > 0 && Increasing(axis)
    ensures axis[0] <= Clamped(axis, x) <= axis[|axis| - 1]
    ensures axis[0] <= x <= axis[|axis| - 1] ==> Clamped(axis, x) == x
    ensures LowerIndex(axis, Clamped(axis, x)) == LowerIndex(axis, x)
  {
    if |axis| > 1 {
      IncreasingOrder(axis, 0, |axis| - 1);
    }
  }

  /** The cell of a value: both indices at an end, or neighbours around the value. */
  lemma CellOf(axis: seq<real>, x: real)
    requires |axis| > 0 && Increasing(axis)
    ensures LowerIndex(axis, x) < |axis|
    ensures var lo := LowerIndex(axis, x);
            var hi := UpperIndex(axis, lo);
            && lo <= hi < |axis|
            && (lo == hi ==> lo == |axis| - 1 && Clamped(axis, x) == axis[lo])
            && (lo < hi ==> axis[lo] <= Clamped(axis, x) <= axis[hi] && axis[lo] < axis[hi])
            && (lo < hi && x <= axis[0] ==> lo == 0)
            && (lo < hi ==> x <= axis[hi] && (x >= axis[lo] || lo == 0))
  {
    LowerFits(axis, x);
    var lo := LowerIndex(axis, x);
    var hi := UpperIndex(axis, lo);
    if |axis| > 1 {
      IncreasingOrder(axis, 0, |axis| - 1);
    }
    if axis[0] < x < axis[|axis| - 1] {
      InsideCell(axis, x);
    }
  }

  /** At a point of the axis the cell has that point as an end. */
  lemma CellOfNode(axis: seq<real>, k: nat)
    requires |axis| > 0 && Increasing(axis) && k < |axis|
    ensures var lo := LowerIndex(axis, axis[k]);
            lo == k || (lo + 1 == k && UpperIndex(axis, lo) == k)
  {
    var x := axis[k];
    if 0 < k {
      IncreasingOrder(axis, 0, k);
      if k < |axis| - 1 {
        IncreasingOrder(axis, k, |axis| - 1);
        InsideCell(axis, x);
        var lo := LowerIndex(axis, x);
        if lo + 1 < k {
          IncreasingOrder(axis, lo + 1, k);
        }
      }
    }
  }

  // ---------------------------------------------------------------- fractions

  /** A fraction clamped to [0, 1] stands for the value moved between the ends. */
  lemma FractionPlaces(a: real, b: real, x: real)
    requires a < b
    ensures var f := LinearFraction(a, b, x);
            && Mix(a, b, f) == (if x < a then a else if x > b then b else x)
            && (x <= a ==> f == 0.0) && (x >= b ==> f == 1.0)
  {
    var q := (x - a) / (b - a);
    assert q * (b - a) == x - a;
    if x < a {
      BelowStart(x, a, b);
    } else if x > b {
      if q <= 1.0 {
        NonNegativeProduct(1.0 - q, b - a);
      }
    } else {
      FractionInside(x, a, b);
    }
    MixEnds(a, b);
    assert Mix(a, b, q) == a + q * (b - a);
  }

  /** Between different ends the logarithmic fraction is the linear one of the logarithms. */
  lemma LogIsLinear(log: real -> real, a: real, b: real, x: real)
    requires IncreasingOnPositives(log) && 0.0 < a < b
    ensures LogFraction(log, a, b, x) == LinearFraction(log(a), log(b), log(x))
    ensures log(a) < log(b)
  {
  }

  /** On the angle axis: the blend of the cell's ends at the fraction is the angle moved inside. */
  lemma AnglePlaced(axis: seq<real>, x: real)
    requires |axis| > 0 && Increasing(axis)
    ensures LowerIndex(axis, x) < |axis|
    ensures var lo := LowerIndex(axis, x);
            var hi := UpperIndex(axis, lo);
            hi < |axis| && Mix(axis[lo], axis[hi], LinearFraction(axis[lo], axis[hi], x)) == Clamped(axis, x)
  {
    CellOf(axis, x);
    var lo := LowerIndex(axis, x);
    var hi := UpperIndex(axis, lo);
    if lo < hi {
      FractionPlaces(axis[lo], axis[hi], x);
    } else {
      MixEnds(axis[lo], axis[lo]);
    }
  }

  lemma LogOrder(log: real -> real, a: real, b: real)
    requires IncreasingOnPositives(log) && a > 0.0 && b > 0.0
    ensures (a <= b <==> log(a) <= log(b)) && (a == b <==> log(a) == log(b))
  {
    if a < b {
      assert log(a) < log(b);
    } else if b < a {
      assert log(b) < log(a);
    }
  }

  /** On the Strouhal axis the same holds of the logarithms. */
  lemma StrouhalPlaced(c: Curve, log: real -> real, s: real)
    requires ValidCurve(c) && IncreasingOnPositives(log) && s > 0.0
    ensures LowerIndex(c.strouhal, s) < |c.strouhal|
    ensures var lo := LowerIndex(c.strouhal, s);
            var hi := UpperIndex(c.strouhal, lo);
            && hi < |c.strouhal|
            && (c.strouhal[hi] == c.strouhal[lo] || log(c.strouhal[hi]) != log(c.strouhal[lo]))
            && Mix(log(c.strouhal[lo]), log(c.strouhal[hi]), LogFraction(log, c.strouhal[lo], c.strouhal[hi], s))
               == log(Clamped(c.strouhal, s))
  {
    hide Mix, LinearFraction, LogFraction;
    var axis := c.strouhal;
    CellOf(axis, s);
    LogsDiffer(c, log, s);
    var lo := LowerIndex(axis, s);
    var hi := UpperIndex(axis, lo);
    if lo < hi {
      LogIsLinear(log, axis[lo], axis[hi], s);
      FractionPlaces(log(axis[lo]), log(axis[hi]), log(s));
      LogOrder(log, s, axis[lo]);
      LogOrder(log, axis[hi], s);
    } else {
      SameEnds(log, axis[lo], s);
      MixEnds(log(axis[lo]), log(axis[lo]));
    }
  }

  lemma SameEnds(log: real -> real, a: real, x: real)
    ensures LogFraction(log, a, a, x) == 0.0
  {
  }

  // ---------------------------------------------------------------- the lookup

  /** Affine in each of its two arguments, whatever the other is. */
  ghost predicate Bilinear(g: (real, real) -> real) {
    forall p: real, q: real, r: real, f: real ::
      MixesFirst(g, p, q, r, f) && MixesSecond(g, p, q, r, f)
  }

  ghost predicate MixesFirst(g: (real, real) -> real, p: real, q: real, r: real, f: real) {
    g(Mix(p, q, f), r) == Mix(g(p, r), g(q, r), f)
  }

  ghost predicate MixesSecond(g: (real, real) -> real, p: real, q: real, r: real, f: real) {
    g(r, Mix(p, q, f)) == Mix(g(r, p), g(r, q), f)
  }

  /**
   * A curve sampled from any function that is affine in the angle and affine in the logarithm of the Strouhal
   * number is looked up exactly at every point of the grid's range, and outside at the nearest end.
   */
  lemma CurveIsExact(c: Curve, log: real -> real, g: (real, real) -> real, s: real, angle: real)
    requires ValidCurve(c) && IncreasingOnPositives(log) && Bilinear(g) && s > 0.0
    requires forall i, j :: 0 <= i < |c.strouhal| && 0 <= j < |c.angles| ==>
               c.db[i][j] == g(log(c.strouhal[i]), c.angles[j])
    ensures CurveAt(c, log, s, angle) == g(log(Clamped(c.strouhal, s)), Clamped(c.angles, angle))
  {
    hide Mix, LinearFraction, LogFraction, Clamped, Increasing, LowerIndex, UpperIndex;
    AnglePlaced(c.angles, angle);
    StrouhalPlaced(c, log, s);
    LowerFits(c.strouhal, s);
    LowerFits(c.angles, angle);
    var ls := LowerIndex(c.strouhal, s);
    var hs := UpperIndex(c.strouhal, ls);
    var la := LowerIndex(c.angles, angle);
    var ha := UpperIndex(c.angles, la);
    var sf := LogFraction(log, c.strouhal[ls], c.strouhal[hs], s);
    var af := LinearFraction(c.angles[la], c.angles[ha], angle);
    var p, q, x, y := log(c.strouhal[ls]), log(c.strouhal[hs]), c.angles[la], c.angles[ha];
    assert MixesSecond(g, x, y, p, af) && MixesSecond(g, x, y, q, af);
    assert MixesFirst(g, p, q, Clamped(c.angles, angle), sf);
  }

  /** At a node of the Strouhal axis the column's blend is the stored entry, whichever cell is used. */
  lemma ColumnOnNode(c: Curve, log: real -> real, i: nat, a: nat)
    requires ValidCurve(c) && IncreasingOnPositives(log) && i < |c.strouhal| && a < |c.angles|
    ensures ColumnAt(c, log, c.strouhal[i], a) == c.db[i][a]
  {
    hide Mix, LinearFraction, LogFraction;
    var axis := c.strouhal;
    CellOfNode(axis, i);
    CellOf(axis, axis[i]);
    LogsDiffer(c, log, axis[i]);
    var lo := LowerIndex(axis, axis[i]);
    var hi := UpperIndex(axis, lo);
    MixEnds(c.db[lo][a], c.db[hi][a]);
    if lo < hi {
      LogIsLinear(log, axis[lo], axis[hi], axis[i]);
      FractionPlaces(log(axis[lo]), log(axis[hi]), log(axis[i]));
    } else {
      SameEnds(log, axis[lo], axis[i]);
    }
  }

  /** At every node the curve is the stored entry. */
  lemma CurveOnNode(c: Curve, log: real -> real, i: nat, a: nat)
    requires ValidCurve(c) && IncreasingOnPositives(log) && i < |c.strouhal| && a < |c.angles|
    ensures CurveAt(c, log, c.strouhal[i], c.angles[a]) == c.db[i][a]
  {
    hide CurveAt, ColumnAt;
    CurveOnAngle(c, log, c.strouhal[i], a);
    ColumnOnNode(c, log, i, a);
  }

  lemma AngleFractionAtNearest(axis: seq<real>, x: real)
    requires |axis| > 0 && Increasing(axis)
    ensures LowerIndex(axis, x) < |axis| && LowerIndex(axis, Clamped(axis, x)) == LowerIndex(axis, x)
    ensures var lo := LowerIndex(axis, x);
            var hi := UpperIndex(axis, lo);
            && hi < |axis|
            && LinearFraction(axis[lo], axis[hi], Clamped(axis, x)) == LinearFraction(axis[lo], axis[hi], x)
  {
    NearestInside(axis, x);
    CellOf(axis, x);
    var lo := LowerIndex(axis, x);
    var hi := UpperIndex(axis, lo);
    if lo < hi {
      FractionPlaces(axis[lo], axis[hi], x);
      FractionPlaces(axis[lo], axis[hi], Clamped(axis, x));
    }
  }

  lemma LogFractionAtNearest(c: Curve, log: real -> real, s: real)
    requires ValidCurve(c) && IncreasingOnPositives(log) && s > 0.0
    ensures var axis := c.strouhal;
            LowerIndex(axis, s) < |axis| && LowerIndex(axis, Clamped(axis, s)) == LowerIndex(axis, s)
    ensures var axis := c.strouhal;
            var lo := LowerIndex(axis, s);
            var hi := UpperIndex(axis, lo);
            && hi < |axis| && (axis[hi] == axis[lo] || log(axis[hi]) != log(axis[lo]))
            && LogFraction(log, axis[lo], axis[hi], Clamped(axis, s)) == LogFraction(log, axis[lo], axis[hi], s)
  {
    hide LinearFraction, LogFraction;
    var axis := c.strouhal;
    NearestInside(axis, s);
    CellOf(axis, s);
    LogsDiffer(c, log, s);
    var lo := LowerIndex(axis, s);
    var hi := UpperIndex(axis, lo);
    var t := Clamped(axis, s);
    if lo < hi {
      LogIsLinear(log, axis[lo], axis[hi], s);
      LogIsLinear(log, axis[lo], axis[hi], t);
      FractionPlaces(log(axis[lo]), log(axis[hi]), log(s));
      FractionPlaces(log(axis[lo]), log(axis[hi]), log(t));
      LogOrder(log, s, axis[lo]);
      LogOrder(log, axis[hi], s);
    } else {
      SameEnds(log, axis[lo], s);
      SameEnds(log, axis[lo], t);
    }
  }

  /** Outside the grid the curve is what it is at the nearest end. */
  lemma CurveOutside(c: Curve, log: real -> real, s: real, angle: real)
    requires ValidCurve(c) && IncreasingOnPositives(log) && s > 0.0
    ensures CurveAt(c, log, s, angle) == CurveAt(c, log, Clamped(c.strouhal, s), Clamped(c.angles, angle))
  {
    hide Mix, LinearFraction, LogFraction, Clamped, Increasing, LowerIndex;
    AngleFractionAtNearest(c.angles, angle);
    LogFractionAtNearest(c, log, s);
  }

  // ---------------------------------------------------------------- the baked deck

  /** A band whose Strouhal number is a node gets the stored entries, at every angle of the curve. */
  lemma BakedNode(d: Deck, c: Curve, log: real -> real, diameter: real, velocity: real, i: nat, a: nat, b: nat)
    requires ValidCurve(c) && IncreasingOnPositives(log) && diameter > 0.0 && velocity > 0.0
    requires Sampled(d, c, log, diameter, velocity) && b < |d.bands| && i < |c.strouhal| && a < |c.angles|
    requires d.bands[b].center * diameter == c.strouhal[i] * velocity
    ensures DeckAt(d, c.angles[a])[b] == c.db[i][a]
  {
    hide CurveAt, DeckAt;
    var q := StrouhalOf(d.bands[b], diameter, velocity);
    assert q * velocity == d.bands[b].center * diameter;
    Cancel(q, c.strouhal[i], velocity);
    CurveOnNode(c, log, i, a);
    DeckAgrees(d, c, log, diameter, velocity, c.angles[a], b);
  }
}
