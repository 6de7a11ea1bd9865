/** Directivity of a jet-noise source: the Strouhal/angle curve, the band deck baked from it, and their agreement. */
module Directivity {
  import opened Wrappers
  import opened Reals

  datatype AcousticsError =
    | Empty | LengthMismatch | NonPositive | Negative | NonIncreasing | InvalidFraction | BandGridMismatch
    | NonIncreasingBands

  datatype Band = Band(center: real, lower: real, upper: real)

  /** Rows by Strouhal number, columns by angle. */
  datatype Curve = Curve(strouhal: seq<real>, angles: seq<real>, db: seq<seq<real>>)

  /** Rows by angle, columns by band. */
  datatype Deck = Deck(bands: seq<Band>, angles: seq<real>, db: seq<seq<real>>)

  ghost predicate IncreasingOnPositives(log: real -> real) {
    forall x: real, y: real :: 0.0 < x < y ==> log(x) < log(y)
  }

  predicate Rectangular(rows: seq<seq<real>>, height: nat, width: nat) {
    |rows| == height && forall i :: 0 <= i < height ==> |rows[i]| == width
  }

  predicate ValidCurve(c: Curve) {
    && |c.strouhal| > 0 && |c.angles| > 0 && Rectangular(c.db, |c.strouhal|, |c.angles|)
    && Increasing(c.strouhal) && (forall i :: 0 <= i < |c.strouhal| ==> c.strouhal[i] > 0.0)
    && Increasing(c.angles) && (forall i :: 0 <= i < |c.angles| ==> c.angles[i] >= 0.0)
  }

  predicate ValidBands(bands: seq<Band>) {
    && |bands| > 0
    && (forall i :: 0 <= i < |bands| ==> bands[i].center > 0.0 && bands[i].lower > 0.0 && bands[i].upper > 0.0)
    && (forall i :: 0 < i < |bands| ==> bands[i - 1].center < bands[i].center)
  }

  predicate ValidDeck(d: Deck) {
    && ValidBands(d.bands) && |d.angles| > 0 && Rectangular(d.db, |d.angles|, |d.bands|)
    && Increasing(d.angles) && (forall i :: 0 <= i < |d.angles| ==> d.angles[i] >= 0.0)
  }

  // ---------------------------------------------------------------- construction

  /** The first fault of an axis from point `i` on: a value below its range, or one not above the previous. */
  function AxisFault(axis: seq<real>, i: nat, zeroAllowed: bool): Option<AcousticsError>
    requires i <= |axis|
    decreases |axis| - i
  {
    if i == |axis| then None
    else if axis[i] < 0.0 && zeroAllowed then Some(Negative)
    else if axis[i] <= 0.0 && !zeroAllowed then Some(NonPositive)
    else if i > 0 && axis[i] <= axis[i - 1] then Some(NonIncreasing)
    else AxisFault(axis, i + 1, zeroAllowed)
  }

  method CheckPositiveAxis(axis: seq<real>) returns (fault: Result<(), AcousticsError>)
    ensures fault.Ok? <==> Increasing(axis) && forall i :: 0 <= i < |axis| ==> axis[i] > 0.0
    ensures AxisFault(axis, 0, false) == if fault.Err? then Some(fault.error) else None
  {
    for i := 0 to |axis|
      invariant forall k :: 0 <= k < i ==> axis[k] > 0.0
      invariant forall k :: 0 < k < i ==> axis[k - 1] < axis[k]
      invariant AxisFault(axis, 0, false) == AxisFault(axis, i, false)
    {
      if axis[i] <= 0.0 {
        return Err(NonPositive);
      }
      if i > 0 && axis[i] <= axis[i - 1] {
        return Err(NonIncreasing);
      }
    }
    return Ok(());
  }

  method CheckAngles(axis: seq<real>) returns (fault: Result<(), AcousticsError>)
    ensures fault.Ok? <==> Increasing(axis) && forall i :: 0 <= i < |axis| ==> axis[i] >= 0.0
    ensures AxisFault(axis, 0, true) == if fault.Err? then Some(fault.error) else None
  {
    for i := 0 to |axis|
      invariant forall k :: 0 <= k < i ==> axis[k] >= 0.0
      invariant forall k :: 0 < k < i ==> axis[k - 1] < axis[k]
      invariant AxisFault(axis, 0, true) == AxisFault(axis, i, true)
    {
      if axis[i] < 0.0 {
        return Err(Negative);
      }
      if i > 0 && axis[i] <= axis[i - 1] {
        return Err(NonIncreasing);
      }
    }
    return Ok(());
  }

  /** The fault a curve is refused for: sizes, then the Strouhal axis, then the angles, then the rows. */
  function CurveFault(strouhal: seq<real>, angles: seq<real>, db: seq<seq<real>>): Option<AcousticsError> {
    if |strouhal| == 0 || |angles| == 0 then Some(Empty)
    else if |strouhal| != |db| then Some(LengthMismatch)
    else if AxisFault(strouhal, 0, false).Some? then AxisFault(strouhal, 0, false)
    else if AxisFault(angles, 0, true).Some? then AxisFault(angles, 0, true)
    else if Rectangular(db, |strouhal|, |angles|) then None
    else Some(LengthMismatch)
  }

  /** Accepts exactly the well-formed curves. */
  method NewCurve(strouhal: seq<real>, angles: seq<real>, db: seq<seq<real>>) returns (r: Result<Curve, AcousticsError>)
    ensures r.Ok? <==> ValidCurve(Curve(strouhal, angles, db))
    ensures r.Ok? ==> r.value == Curve(strouhal, angles, db)
    ensures r.Err? ==> CurveFault(strouhal, angles, db) == Some(r.error)
  {
    if |strouhal| == 0 || |angles| == 0 {
      return Err(Empty);
    }
    if |strouhal| != |db| {
      return Err(LengthMismatch);
    }
    var fault := CheckPositiveAxis(strouhal);
    if fault.Err? {
      return Err(fault.error);
    }
    fault := CheckAngles(angles);
    if fault.Err? {
      return Err(fault.error);
    }
    for i := 0 to |db|
      invariant forall k :: 0 <= k < i ==> |db[k]| == |angles|
    {
      if |db[i]| != |angles| {
        return Err(LengthMismatch);
      }
    }
    return Ok(Curve(strouhal, angles, db));
  }

  /** The first fault of the band grid from band `i` on. */
  function BandFault(bands: seq<Band>, i: nat): Option<AcousticsError>
    requires i <= |bands|
    decreases |bands| - i
  {
    if i == |bands| then None
    else if bands[i].center <= 0.0 || bands[i].lower <= 0.0 || bands[i].upper <= 0.0 then Some(NonPositive)
    else if i > 0 && bands[i].center <= bands[i - 1].center then Some(NonIncreasing)
    else BandFault(bands, i + 1)
  }

  function BandsFault(bands: seq<Band>, count: nat): Option<AcousticsError> {
    if |bands| == 0 then Some(Empty) else if |bands| != count then Some(LengthMismatch) else BandFault(bands, 0)
  }

  method CheckBands(bands: seq<Band>, count: nat) returns (fault: Result<(), AcousticsError>)
    ensures fault.Ok? <==> ValidBands(bands) && |bands| == count
    ensures BandsFault(bands, count) == if fault.Err? then Some(fault.error) else None
  {
    if |bands| == 0 {
      return Err(Empty);
    }
    if |bands| != count {
      return Err(LengthMismatch);
    }
    for i := 0 to |bands|
      invariant forall k :: 0 <= k < i ==> bands[k].center > 0.0 && bands[k].lower > 0.0 && bands[k].upper > 0.0
      invariant forall k :: 0 < k < i ==> bands[k - 1].center < bands[k].center
      invariant BandFault(bands, 0) == BandFault(bands, i)
    {
      if bands[i].center <= 0.0 || bands[i].lower <= 0.0 || bands[i].upper <= 0.0 {
        return Err(NonPositive);
      }
      if i > 0 && bands[i].center <= bands[i - 1].center {
        return Err(NonIncreasing);
      }
    }
    return Ok(());
  }

  /** The fault a deck is refused for: the bands, then sizes, then the angles, then the rows. */
  function DeckFault(bands: seq<Band>, angles: seq<real>, db: seq<seq<real>>): Option<AcousticsError> {
    if BandsFault(bands, |bands|).Some? then BandsFault(bands, |bands|)
    else if |angles| == 0 then Some(Empty)
    else if |angles| != |db| then Some(LengthMismatch)
    else if AxisFault(angles, 0, true).Some? then AxisFault(angles, 0, true)
    else if Rectangular(db, |angles|, |bands|) then None
    else Some(LengthMismatch)
  }

  /** Accepts exactly the well-formed decks. */
  method NewDeck(bands: seq<Band>, angles: seq<real>, db: seq<seq<real>>) returns (r: Result<Deck, AcousticsError>)
    ensures r.Ok? <==> ValidDeck(Deck(bands, angles, db))
    ensures r.Ok? ==> r.value == Deck(bands, angles, db)
    ensures r.Err? ==> DeckFault(bands, angles, db) == Some(r.error)
  {
    var fault := CheckBands(bands, |bands|);
    if fault.Err? {
      return Err(fault.error);
    }
    if |angles| == 0 {
      return Err(Empty);
    }
    if |angles| != |db| {
      return Err(LengthMismatch);
    }
    fault := CheckAngles(angles);
    if fault.Err? {
      return Err(fault.error);
    }
    for i := 0 to |db|
      invariant forall k :: 0 <= k < i ==> |db[k]| == |bands|
    {
      if |db[i]| != |bands| {
        return Err(LengthMismatch);
      }
    }
    return Ok(Deck(bands, angles, db));
  }

  // ---------------------------------------------------------------- the curve

  /** The first pair of neighbours that encloses the value, or 0. */
  function FirstWindow(axis: seq<real>, x: real, from: nat): nat
    decreases |axis| - from
  {
    if from + 1 >= |axis| then 0
    else if axis[from] <= x <= axis[from + 1] then from
    else FirstWindow(axis, x, from + 1)
  }

  function LowerIndex(axis: seq<real>, x: real): nat
    requires |axis| > 0
  {
    if |axis| == 1 || x <= axis[0] then 0
    else if x >= axis[|axis| - 1] then |axis| - 1
    else FirstWindow(axis, x, 0)
  }

  function UpperIndex(axis: seq<real>, lower: nat): nat
    requires |axis| > 0
  {
    if lower + 1 < |axis| - 1 then lower + 1 else |axis| - 1
  }

  function Clamp01(x: real): real {
    if x < 0.0 then 0.0 else if x > 1.0 then 1.0 else x
  }

  function LinearFraction(lower: real, upper: real, x: real): real {
    if upper == lower then 0.0 else Clamp01((x - lower) / (upper - lower))
  }

  function LogFraction(log: real -> real, lower: real, upper: real, x: real): real
    requires upper == lower || log(upper) != log(lower)
  {
    if upper == lower then 0.0 else Clamp01((log(x) - log(lower)) / (log(upper) - log(lower)))
  }

  function Mix(lower: real, upper: real, f: real): real {
    lower * (1.0 - f) + upper * f
  }

  lemma {:induction false} WindowFits(axis: seq<real>, x: real, from: nat)
    ensures FirstWindow(axis, x, from) == 0 || FirstWindow(axis, x, from) + 1 < |axis|
    decreases |axis| - from
  {
    if from + 1 < |axis| {
      WindowFits(axis, x, from + 1);
    }
  }

  /** The bracket of a value on an axis: lower and upper index. */
  lemma LowerFits(axis: seq<real>, x: real)
    requires |axis| > 0
    ensures LowerIndex(axis, x) < |axis| && UpperIndex(axis, LowerIndex(axis, x)) < |axis|
    ensures LowerIndex(axis, x) <= UpperIndex(axis, LowerIndex(axis, x))
  {
    WindowFits(axis, x, 0);
  }

  lemma LogsDiffer(c: Curve, log: real -> real, s: real)
    requires ValidCurve(c) && IncreasingOnPositives(log)
    ensures LowerIndex(c.strouhal, s) < |c.strouhal|
    ensures var lo := LowerIndex(c.strouhal, s);
            var hi := UpperIndex(c.strouhal, lo);
            c.strouhal[hi] == c.strouhal[lo] || log(c.strouhal[hi]) != log(c.strouhal[lo])
  {
    LowerFits(c.strouhal, s);
    var lo := LowerIndex(c.strouhal, s);
    var hi := UpperIndex(c.strouhal, lo);
    if lo < hi {
      IncreasingOrder(c.strouhal, lo, hi);
    }
  }

  /** The bilinear lookup: linear in the angle, linear in the logarithm of the Strouhal number. */
  function CurveAt(c: Curve, log: real -> real, s: real, angle: real): real
    requires ValidCurve(c) && IncreasingOnPositives(log)
  {
    LowerFits(c.strouhal, s);
    LowerFits(c.angles, angle);
    LogsDiffer(c, log, s);
    var lowS := LowerIndex(c.strouhal, s);
    var highS := UpperIndex(c.strouhal, lowS);
    var lowA := LowerIndex(c.angles, angle);
    var highA := UpperIndex(c.angles, lowA);
    var sf := LogFraction(log, c.strouhal[lowS], c.strouhal[highS], s);
    var af := LinearFraction(c.angles[lowA], c.angles[highA], angle);
    Mix(Mix(c.db[lowS][lowA], c.db[lowS][highA], af), Mix(c.db[highS][lowA], c.db[highS][highA], af), sf)
  }

  function DirectivityAt(c: Curve, log: real -> real, s: real, angle: real): Result<real, AcousticsError>
    requires ValidCurve(c) && IncreasingOnPositives(log)
  {
    if s <= 0.0 then Err(NonPositive) else if angle < 0.0 then Err(Negative) else Ok(CurveAt(c, log, s, angle))
  }

  // ---------------------------------------------------------------- the band deck

  function FirstAtLeast(axis: seq<real>, x: real, from: nat): (k: nat)
    requires from <= |axis|
    ensures from <= k <= |axis|
    ensures forall i :: from <= i < k ==> axis[i] < x
    ensures k < |axis| ==> axis[k] >= x
    decreases |axis| - from
  {
    if from == |axis| || axis[from] >= x then from else FirstAtLeast(axis, x, from + 1)
  }

  function MixRows(low: seq<real>, high: seq<real>, f: real): (r: seq<real>)
    requires |low| == |high|
    ensures |r| == |low| && forall i :: 0 <= i < |r| ==> r[i] == Mix(low[i], high[i], f)
  {
    seq(|low|, i requires 0 <= i < |low| => Mix(low[i], high[i], f))
  }

  /** The row for an angle, clamped to the first and last rows. */
  function DeckAt(d: Deck, angle: real): (row: seq<real>)
    requires ValidDeck(d)
    ensures |row| == |d.bands|
  {
    var last := |d.angles| - 1;
    if angle <= d.angles[0] then d.db[0]
    else if angle >= d.angles[last] then d.db[last]
    else
      var upper := FirstAtLeast(d.angles, angle, 0);
      var lower := upper - 1;
      MixRows(d.db[lower], d.db[upper], (angle - d.angles[lower]) / (d.angles[upper] - d.angles[lower]))
  }

  // ---------------------------------------------------------------- baking

  function StrouhalOf(b: Band, diameter: real, velocity: real): real
    requires velocity > 0.0
  {
    b.center * diameter / velocity
  }

  /** Every entry of the deck is the curve at that band's Strouhal number and that row's angle. */
  ghost predicate Sampled(d: Deck, c: Curve, log: real -> real, diameter: real, velocity: real)
    requires ValidCurve(c) && IncreasingOnPositives(log) && velocity > 0.0
  {
    && ValidDeck(d) && d.angles == c.angles
    && forall a, b :: 0 <= a < |d.angles| && 0 <= b < |d.bands| ==>
         d.db[a][b] == CurveAt(c, log, StrouhalOf(d.bands[b], diameter, velocity), c.angles[a])
  }

  /** A centre that is not positive is met while baking, before the rest of the band grid is checked. */
  function BakeFault(bands: seq<Band>, diameter: real, velocity: real): Option<AcousticsError> {
    if diameter <= 0.0 || velocity <= 0.0 || exists b :: 0 <= b < |bands| && bands[b].center <= 0.0
    then Some(NonPositive)
    else BandsFault(bands, |bands|)
  }

  lemma GoodAngles(axis: seq<real>, i: nat)
    requires i <= |axis| && Increasing(axis) && forall k :: 0 <= k < |axis| ==> axis[k] >= 0.0
    ensures AxisFault(axis, i, true) == None
    decreases |axis| - i
  {
  }

  /** Bakes the deck by angle, then by band; refuses exactly bad exit geometry and bad band grids. */
  method ToDirectivityDeck(c: Curve, log: real -> real, bands: seq<Band>, diameter: real, velocity: real)
    returns (r: Result<Deck, AcousticsError>)
    requires ValidCurve(c) && IncreasingOnPositives(log)
    ensures r.Ok? <==> diameter > 0.0 && velocity > 0.0 && ValidBands(bands)
    ensures r.Ok? ==> r.value.bands == bands && Sampled(r.value, c, log, diameter, velocity)
    ensures r.Err? ==> BakeFault(bands, diameter, velocity) == Some(r.error)
  {
    hide BandFault, AxisFault;
    hide CurveAt;
    GoodAngles(c.angles, 0);
    if diameter <= 0.0 || velocity <= 0.0 {
      return Err(NonPositive);
    }
    var rows: seq<seq<real>> := [];
    for a := 0 to |c.angles|
      invariant Rectangular(rows, a, |bands|) && (a > 0 ==> forall b :: 0 <= b < |bands| ==> bands[b].center > 0.0)
      invariant forall p, b :: 0 <= p < a && 0 <= b < |bands| ==>
                  rows[p][b] == CurveAt(c, log, StrouhalOf(bands[b], diameter, velocity), c.angles[p])
    {
      var row: seq<real> := [];
      for b := 0 to |bands|
        invariant |row| == b && forall t :: 0 <= t < b ==> bands[t].center > 0.0
        invariant forall t :: 0 <= t < b ==>
                    row[t] == CurveAt(c, log, StrouhalOf(bands[t], diameter, velocity), c.angles[a])
      {
        var s := StrouhalOf(bands[b], diameter, velocity);
        StrouhalSign(bands[b], diameter, velocity);
        var value := DirectivityAt(c, log, s, c.angles[a]);
        if value.Err? {
          return Err(value.error);
        }
        row := row + [value.value];
      }
      rows := rows + [row];
    }
    r := NewDeck(bands, c.angles, rows);
  }

  lemma StrouhalSign(b: Band, diameter: real, velocity: real)
    requires diameter > 0.0 && velocity > 0.0
    ensures b.center > 0.0 <==> StrouhalOf(b, diameter, velocity) > 0.0
  {
    var p := b.center * diameter;
    assert StrouhalOf(b, diameter, velocity) * velocity == p;
    if b.center > 0.0 {
      PositiveProduct(b.center, diameter);
      PositiveQuotient(p, velocity);
    } else {
      PositiveOr(b.center, diameter);
      NotPositiveQuotient(p, velocity);
    }
  }

  lemma PositiveOr(a: real, b: real)
    requires a <= 0.0 && b > 0.0
    ensures a * b <= 0.0
  {
  }

  lemma PositiveQuotient(a: real, b: real)
    requires a > 0.0 && b > 0.0
    ensures a / b > 0.0
  {
  }

  lemma NotPositiveQuotient(a: real, b: real)
    requires a <= 0.0 && b > 0.0
    ensures a / b <= 0.0
  {
  }

  // ---------------------------------------------------------------- agreement

  /** Blending over the angle and over the Strouhal number may be done in either order. */
  lemma MixOrder(a: real, b: real, c: real, d: real, f: real, g: real)
    ensures Mix(Mix(a, b, f), Mix(c, d, f), g) == Mix(Mix(a, c, g), Mix(b, d, g), f)
  {
    var u, v := 1.0 - f, 1.0 - g;
    Spread2(a * u, b * f, v);
    Spread2(c * u, d * f, g);
    Spread2(a * v, c * g, u);
    Spread2(b * v, d * g, f);
    Swap(a, u, v);
    Swap(b, f, v);
    Swap(c, u, g);
    Swap(d, f, g);
  }

  lemma Spread2(x: real, y: real, k: real)
    ensures (x + y) * k == x * k + y * k
  {
  }

  lemma Swap(a: real, x: real, y: real)
    ensures (a * x) * y == (a * y) * x
  {
  }

  lemma MixEnds(a: real, b: real)
    ensures Mix(a, b, 0.0) == a && Mix(a, b, 1.0) == b
    ensures forall f: real :: Mix(a, a, f) == a
  {
    forall f: real
      ensures Mix(a, a, f) == a
    {
      Spread2(1.0 - f, f, a);
    }
  }

  lemma {:induction false} WindowFound(axis: seq<real>, x: real, from: nat)
    requires Increasing(axis) && from + 1 < |axis| && axis[from] <= x <= axis[|axis| - 1]
    requires from == 0 || axis[from] < x
    ensures var k := FirstWindow(axis, x, from);
            from <= k && k + 1 < |axis| && axis[k] <= x <= axis[k + 1] && (k == from || axis[k] < x)
    decreases |axis| - from
  {
    if x > axis[from + 1] {
      if from + 2 < |axis| {
        WindowFound(axis, x, from + 1);
      }
    }
  }

  /** The Strouhal blend of one column of the curve. */
  ghost function ColumnAt(c: Curve, log: real -> real, s: real, a: nat): real
    requires ValidCurve(c) && IncreasingOnPositives(log) && a < |c.angles|
  {
    LowerFits(c.strouhal, s);
    LogsDiffer(c, log, s);
    var lo := LowerIndex(c.strouhal, s);
    var hi := UpperIndex(c.strouhal, lo);
    Mix(c.db[lo][a], c.db[hi][a], LogFraction(log, c.strouhal[lo], c.strouhal[hi], s))
  }

  /** The bilinear lookup is an angle blend of two column blends. */
  lemma CurveByColumns(c: Curve, log: real -> real, s: real, angle: real)
    requires ValidCurve(c) && IncreasingOnPositives(log)
    ensures LowerIndex(c.angles, angle) < |c.angles|
    ensures var lo := LowerIndex(c.angles, angle);
            var hi := UpperIndex(c.angles, lo);
            CurveAt(c, log, s, angle)
            == Mix(ColumnAt(c, log, s, lo), ColumnAt(c, log, s, hi), LinearFraction(c.angles[lo], c.angles[hi], angle))
  {
    hide Mix, LogFraction, LinearFraction;
    LowerFits(c.strouhal, s);
    LowerFits(c.angles, angle);
    LogsDiffer(c, log, s);
    var ls := LowerIndex(c.strouhal, s);
    var hs := UpperIndex(c.strouhal, ls);
    var la := LowerIndex(c.angles, angle);
    var ha := UpperIndex(c.angles, la);
    MixOrder(c.db[ls][la], c.db[ls][ha], c.db[hs][la], c.db[hs][ha], LinearFraction(c.angles[la], c.angles[ha], angle),
             LogFraction(log, c.strouhal[ls], c.strouhal[hs], s));
  }

  /** Where the angle lies: outside or on the ends, or in the cell that both lookups use. */
  lemma AngleCell(axis: seq<real>, x: real)
    requires |axis| > 0 && Increasing(axis)
    ensures LowerIndex(axis, x) < |axis|
    ensures var lo := LowerIndex(axis, x);
            var hi := UpperIndex(axis, lo);
            && (x <= axis[0] ==> lo == 0 && LinearFraction(axis[lo], axis[hi], x) == 0.0)
            && (x > axis[0] && x >= axis[|axis| - 1] ==> lo == hi == |axis| - 1)
            && (axis[0] < x < axis[|axis| - 1] ==>
                  && lo + 1 == hi == FirstAtLeast(axis, x, 0) && axis[lo] < axis[hi]
                  && LinearFraction(axis[lo], axis[hi], x) == (x - axis[lo]) / (axis[hi] - axis[lo])
                  && (x == axis[hi] ==> LinearFraction(axis[lo], axis[hi], x) == 1.0))
  {
    LowerFits(axis, x);
    var lo := LowerIndex(axis, x);
    var hi := UpperIndex(axis, lo);
    if axis[0] < x < axis[|axis| - 1] {
      InsideCell(axis, x);
    } else if x <= axis[0] && |axis| > 1 {
      BelowStart(x, axis[0], axis[1]);
    }
  }

  lemma InsideCell(axis: seq<real>, x: real)
    requires |axis| > 0 && Increasing(axis) && axis[0] < x < axis[|axis| - 1]
    ensures var lo := LowerIndex(axis, x);
            var hi := UpperIndex(axis, lo);
            && lo + 1 == hi < |axis| && hi == FirstAtLeast(axis, x, 0) && axis[lo] < x <= axis[hi]
            && LinearFraction(axis[lo], axis[hi], x) == (x - axis[lo]) / (axis[hi] - axis[lo])
            && (x == axis[hi] ==> LinearFraction(axis[lo], axis[hi], x) == 1.0)
  {
    WindowFound(axis, x, 0);
    var lo := LowerIndex(axis, x);
    var hi := UpperIndex(axis, lo);
    FractionInside(x, axis[lo], axis[hi]);
    var k := FirstAtLeast(axis, x, 0);
    if k < hi {
      assert k <= lo;
      if k < lo {
        IncreasingOrder(axis, k, lo);
      }
    }
  }

  lemma FractionInside(x: real, a: real, b: real)
    requires a < b && a <= x <= b
    ensures LinearFraction(a, b, x) == (x - a) / (b - a)
    ensures x == b ==> LinearFraction(a, b, x) == 1.0
    ensures x == a ==> LinearFraction(a, b, x) == 0.0
  {
    var f := (x - a) / (b - a);
    assert f * (b - a) == x - a;
    if x > a {
      PositiveQuotient(x - a, b - a);
    }
    AtMostOne(f, b - a, x - a);
  }

  lemma AtMostOne(f: real, d: real, p: real)
    requires d > 0.0 && f * d == p && p <= d
    ensures f <= 1.0
  {
    if f > 1.0 {
      PositiveProduct(f - 1.0, d);
    }
  }

  lemma BelowStart(x: real, a: real, b: real)
    requires a < b && x <= a
    ensures LinearFraction(a, b, x) == 0.0
  {
    NotPositiveQuotient(x - a, b - a);
  }

  /** At a grid angle the curve is that column's Strouhal blend, whichever cell is used. */
  lemma CurveOnAngle(c: Curve, log: real -> real, s: real, a: nat)
    requires ValidCurve(c) && IncreasingOnPositives(log) && a < |c.angles|
    ensures CurveAt(c, log, s, c.angles[a]) == ColumnAt(c, log, s, a)
  {
    hide Mix, CurveAt, ColumnAt, LinearFraction;
    var x := c.angles[a];
    CurveByColumns(c, log, s, x);
    AngleCell(c.angles, x);
    var lo := LowerIndex(c.angles, x);
    var hi := UpperIndex(c.angles, lo);
    MixEnds(ColumnAt(c, log, s, lo), ColumnAt(c, log, s, hi));
    if 0 < a < |c.angles| - 1 {
      IncreasingOrder(c.angles, 0, a);
      IncreasingOrder(c.angles, a, |c.angles| - 1);
      InsideCell(c.angles, x);
      if a < hi {
        assert false by { if a < lo { IncreasingOrder(c.angles, a, lo); } }
      } else if hi < a {
        IncreasingOrder(c.angles, hi, a);
      }
    } else if a > 0 {
      IncreasingOrder(c.angles, 0, a);
    }
  }

  /**
   * Baking agrees with the curve: for every band and every non-negative angle, including breakpoints
   * and beyond both ends, the deck returns what the curve gives at that band's Strouhal number.
   */
  lemma DeckAgrees(d: Deck, c: Curve, log: real -> real, diameter: real, velocity: real, angle: real, b: nat)
    requires ValidCurve(c) && IncreasingOnPositives(log) && diameter > 0.0 && velocity > 0.0
    requires Sampled(d, c, log, diameter, velocity) && b < |d.bands| && angle >= 0.0
    ensures DirectivityAt(c, log, StrouhalOf(d.bands[b], diameter, velocity), angle) == Ok(DeckAt(d, angle)[b])
  {
    hide Mix, CurveAt, ColumnAt, LinearFraction, StrouhalOf;
    var s := StrouhalOf(d.bands[b], diameter, velocity);
    StrouhalSign(d.bands[b], diameter, velocity);
    CurveByColumns(c, log, s, angle);
    AngleCell(c.angles, angle);
    var lo := LowerIndex(c.angles, angle);
    var hi := UpperIndex(c.angles, lo);
    LowerFits(c.angles, angle);
    CurveOnAngle(c, log, s, lo);
    CurveOnAngle(c, log, s, hi);
    MixEnds(ColumnAt(c, log, s, lo), ColumnAt(c, log, s, hi));
  }
}
