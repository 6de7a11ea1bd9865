/** Band pressures at a receiver: two accumulating evaluators over the distributed sources. */
module StationSpectra {
  import opened Wrappers
  import opened Reals
  import opened LinearAlgebra
  import opened Directivity
  import opened SourceAllocation

  const REFERENCE_PRESSURE := 0.00002

  /** The functions of the standard library that the evaluators call, and pi. */
  datatype Math = Math(sqrt: real -> real, atan2Degrees: (real, real) -> real,
                       pow10: real -> real, log10: real -> real, pi: real)

  ghost predicate ValidMath(m: Math) {
    && (forall x: real :: x > 0.0 ==> m.sqrt(x) > 0.0)
    && (forall x: real :: m.pow10(x) > 0.0)
    && m.pi > 0.0
  }

  datatype Exit = Exit(massFlow: real, velocity: real, diameter: real, efficiency: real)

  datatype Receiver = Receiver(axial: real, radial: real)

  datatype Propagation = Propagation(impedance: real, bands: seq<Band>, dbPerMetre: seq<real>, extra: real)

  datatype Shape = Shape(bands: seq<Band>, fractions: Vec)

  /** Fractions by source, then by band. */
  datatype BandWeights = BandWeights(bands: seq<Band>, fractions: seq<Vec>)

  datatype Setup = Setup(math: Math, exit: Exit, directivity: Deck, receiver: Receiver, propagation: Propagation)

  predicate ValidExit(e: Exit) {
    e.massFlow > 0.0 && e.velocity > 0.0 && e.diameter > 0.0 && 0.0 < e.efficiency <= 1.0
  }

  predicate ValidReceiver(r: Receiver) {
    r.axial >= 0.0 && r.radial > 0.0
  }

  predicate ValidPropagation(p: Propagation) {
    && p.impedance > 0.0 && p.extra >= 0.0 && ValidBands(p.bands) && |p.bands| == |p.dbPerMetre|
    && forall i :: 0 <= i < |p.dbPerMetre| ==> p.dbPerMetre[i] >= 0.0
  }

  predicate ValidShape(s: Shape) {
    && ValidBands(s.bands) && |s.fractions| == |s.bands| && SumsToOne(Sum(s.fractions))
    && forall b :: 0 <= b < |s.fractions| ==> 0.0 <= s.fractions[b] <= 1.0
  }

  predicate ValidWeights(w: BandWeights) {
    && ValidBands(w.bands) && |w.fractions| > 0
    && NonNegativeRows(w.fractions, |w.bands|)
  }

  predicate ValidEnvironment(u: Setup) {
    ValidExit(u.exit) && ValidReceiver(u.receiver) && ValidPropagation(u.propagation)
  }

  predicate ValidSetup(u: Setup, bands: seq<Band>) {
    ValidEnvironment(u) && u.directivity.bands == bands && u.propagation.bands == bands
  }

  // ---------------------------------------------------------------- normalised fractions

  /** Every component divided by the total. */
  function Divided(x: Vec, total: real): (r: Vec)
    requires total > 0.0
    ensures |r| == |x| && forall i :: 0 <= i < |r| ==> r[i] == x[i] / total
  {
    seq(|x|, i requires 0 <= i < |x| => x[i] / total)
  }

  lemma DividedScales(x: Vec, total: real, k: real)
    requires total > 0.0 && k * total == 1.0
    ensures Divided(x, total) == Scale(k, x)
  {
    forall i | 0 <= i < |x|
      ensures Divided(x, total)[i] == Scale(k, x)[i]
    {
      OverTotal(x[i], total, k);
    }
  }

  lemma DividedSum(x: Vec, total: real)
    requires total > 0.0
    ensures Sum(Divided(x, total)) == Sum(x) / total
  {
    hide Sum;
    var k := 1.0 / total;
    assert k * total == 1.0;
    DividedScales(x, total, k);
    SumScale(k, x);
    OverTotal(Sum(x), total, k);
  }

  /** Normalised band weights always form a spectrum shape whose fractions sum to exactly one. */
  method NormalizeBandWeights(bands: seq<Band>, weights: Vec) returns (r: Result<Shape, AcousticsError>)
    ensures r.Ok? <==> ValidBands(bands) && |weights| == |bands| && Sum(weights) > 0.0
                       && forall b :: 0 <= b < |weights| ==> weights[b] >= 0.0
    ensures r.Ok? ==> ValidShape(r.value) && Sum(r.value.fractions) == 1.0
                      && r.value == Shape(bands, Divided(weights, Sum(weights)))
    ensures r.Err? ==>
              Some(r.error) == if exists b :: 0 <= b < |weights| && weights[b] < 0.0 then Some(Negative)
                               else if Sum(weights) <= 0.0 then Some(NonPositive) else BandsFault(bands, |weights|)
  {
    hide Sum, BandFault;
    var total := 0.0;
    NoSum(weights[..0]);
    for b := 0 to |weights|
      invariant total == Sum(weights[..b]) && forall k :: 0 <= k < b ==> weights[k] >= 0.0
    {
      if weights[b] < 0.0 {
        return Err(Negative);
      }
      SumNext(weights, b);
      total := total + weights[b];
    }
    assert weights[..|weights|] == weights;
    if total <= 0.0 {
      return Err(NonPositive);
    }
    var fault := CheckBands(bands, |weights|);
    if fault.Err? {
      return Err(fault.error);
    }
    DividedSum(weights, total);
    assert total / total == 1.0;
    forall b | 0 <= b < |weights|
      ensures 0.0 <= Divided(weights, total)[b] <= 1.0
    {
      PartOfSum(weights, b);
      FractionOf(weights[b], total);
    }
    return Ok(Shape(bands, Divided(weights, total)));
  }

  function RowSums(rows: seq<Vec>): (r: Vec)
    ensures |r| == |rows| && forall i :: 0 <= i < |r| ==> r[i] == Sum(rows[i])
  {
    seq(|rows|, i requires 0 <= i < |rows| => Sum(rows[i]))
  }

  function DividedRows(rows: seq<Vec>, total: real): (r: seq<Vec>)
    requires total > 0.0
    ensures |r| == |rows| && forall i :: 0 <= i < |r| ==> r[i] == Divided(rows[i], total)
  {
    seq(|rows|, i requires 0 <= i < |rows| => Divided(rows[i], total))
  }

  predicate NonNegativeRows(rows: seq<Vec>, width: nat) {
    forall s :: 0 <= s < |rows| ==> |rows[s]| == width && forall b :: 0 <= b < width ==> rows[s][b] >= 0.0
  }

  /** The first fault from row `s` on: a row of another length, or a negative weight. */
  function RowsFault(rows: seq<Vec>, width: nat, s: nat): Option<AcousticsError>
    requires s <= |rows|
    decreases |rows| - s
  {
    if s == |rows| then None
    else if |rows[s]| != width then Some(LengthMismatch)
    else if exists b :: 0 <= b < width && rows[s][b] < 0.0 then Some(Negative)
    else RowsFault(rows, width, s + 1)
  }

  /** The fault a weight matrix is refused for: no rows, then the bands, then the rows, then the total. */
  function MatrixFault(bands: seq<Band>, rows: seq<Vec>): Option<AcousticsError> {
    if |rows| == 0 then Some(Empty)
    else if BandsFault(bands, |bands|).Some? then BandsFault(bands, |bands|)
    else if RowsFault(rows, |bands|, 0).Some? then RowsFault(rows, |bands|, 0)
    else if Sum(RowSums(rows)) <= 0.0 then Some(NonPositive) else None
  }

  /** Power is conserved: the normalised source-by-band fractions sum to exactly one over the whole matrix. */
  method NormalizeSourceBandWeights(bands: seq<Band>, rows: seq<Vec>) returns (r: Result<BandWeights, AcousticsError>)
    ensures r.Ok? <==> ValidBands(bands) && NonNegativeRows(rows, |bands|) && Sum(RowSums(rows)) > 0.0
    ensures r.Ok? ==> ValidWeights(r.value) && Sum(RowSums(r.value.fractions)) == 1.0
                      && r.value == BandWeights(bands, DividedRows(rows, Sum(RowSums(rows))))
    ensures r.Err? ==> MatrixFault(bands, rows) == Some(r.error)
  {
    hide Sum, BandFault;
    NoSum(RowSums(rows)[..0]);
    if |rows| == 0 {
      assert RowSums(rows) == RowSums(rows)[..0];
      return Err(Empty);
    }
    var fault := CheckBands(bands, |bands|);
    if fault.Err? {
      return Err(fault.error);
    }
    var total := 0.0;
    for s := 0 to |rows|
      invariant total == Sum(RowSums(rows)[..s]) && NonNegativeRows(rows[..s], |bands|)
      invariant RowsFault(rows, |bands|, 0) == RowsFault(rows, |bands|, s)
    {
      if |rows[s]| != |bands| {
        return Err(LengthMismatch);
      }
      ghost var before := total;
      NoSum(rows[s][..0]);
      for b := 0 to |bands|
        invariant total == before + Sum(rows[s][..b]) && forall k :: 0 <= k < b ==> rows[s][k] >= 0.0
      {
        if rows[s][b] < 0.0 {
          return Err(Negative);
        }
        SumNext(rows[s], b);
        total := total + rows[s][b];
      }
      assert rows[s][..|bands|] == rows[s];
      SumNext(RowSums(rows), s);
    }
    assert RowSums(rows)[..|rows|] == RowSums(rows) && rows[..|rows|] == rows;
    if total <= 0.0 {
      return Err(NonPositive);
    }
    DividedRowsSum(rows, total);
    DividedRowsSign(rows, total, |bands|);
    return Ok(BandWeights(bands, DividedRows(rows, total)));
  }

  lemma DividedRowsSign(rows: seq<Vec>, total: real, width: nat)
    requires total > 0.0 && NonNegativeRows(rows, width)
    ensures NonNegativeRows(DividedRows(rows, total), width)
  {
    forall s, b | 0 <= s < |rows| && 0 <= b < width
      ensures DividedRows(rows, total)[s][b] >= 0.0
    {
      NonNegativeQuotient(rows[s][b], total);
    }
  }

  lemma NonNegativeQuotient(a: real, b: real)
    requires a >= 0.0 && b > 0.0
    ensures a / b >= 0.0
    ensures a > 0.0 ==> a / b > 0.0
  {
    assert (a / b) * b == a;
  }

  lemma DividedRowsSum(rows: seq<Vec>, total: real)
    requires total > 0.0 && total == Sum(RowSums(rows))
    ensures Sum(RowSums(DividedRows(rows, total))) == 1.0
  {
    hide Sum;
    forall s | 0 <= s < |rows|
      ensures RowSums(DividedRows(rows, total))[s] == Divided(RowSums(rows), total)[s]
    {
      DividedSum(rows[s], total);
    }
    assert RowSums(DividedRows(rows, total)) == Divided(RowSums(rows), total);
    DividedSum(RowSums(rows), total);
    assert total / total == 1.0;
  }

  // ---------------------------------------------------------------- one source, one band

  function AcousticPower(e: Exit): real {
    e.efficiency * 0.5 * e.massFlow * e.velocity * e.velocity
  }

  lemma PowerPositive(e: Exit)
    requires ValidExit(e)
    ensures AcousticPower(e) > 0.0
  {
    PositiveProduct(e.efficiency * 0.5, e.massFlow);
    PositiveProduct(e.efficiency * 0.5 * e.massFlow, e.velocity);
    PositiveProduct(e.efficiency * 0.5 * e.massFlow * e.velocity, e.velocity);
  }

  ghost predicate Ready(u: Setup, bands: seq<Band>) {
    ValidSetup(u, bands) && ValidMath(u.math) && ValidDeck(u.directivity)
  }

  function SquaredDistance(dx: real, dy: real): real {
    dx * dx + dy * dy
  }

  function Distance(u: Setup, s: Source): (d: real)
    requires ValidReceiver(u.receiver) && ValidMath(u.math)
    ensures d > 0.0
  {
    SumOfSquares(u.receiver.axial - s.axial, u.receiver.radial);
    u.math.sqrt(SquaredDistance(u.receiver.axial - s.axial, u.receiver.radial))
  }

  lemma SumOfSquares(x: real, y: real)
    requires y > 0.0
    ensures SquaredDistance(x, y) > 0.0
  {
    SquareSign(x, x * x);
    SquareSign(y, y * y);
  }

  function Angle(u: Setup, s: Source): real {
    var dx := u.receiver.axial - s.axial;
    u.math.atan2Degrees(u.receiver.radial, if dx < 0.0 then -dx else dx)
  }

  /** Area of the sphere over which the power spreads. */
  function SphereArea(pi: real, distance: real): (r: real)
    requires pi > 0.0 && distance > 0.0
    ensures r > 0.0
  {
    PositiveProduct(4.0 * pi, distance);
    PositiveProduct(4.0 * pi * distance, distance);
    4.0 * pi * distance * distance
  }

  /** Mean-square pressure of a source of given power through spherical spreading and a gain. */
  function Spread(power: real, impedance: real, area: real, gain: real): real
    requires area > 0.0
  {
    power * impedance / area * gain
  }

  /** Decibels that the air absorbs on the way. */
  function PathLoss(u: Setup, bands: seq<Band>, s: Source, b: nat): real
    requires Ready(u, bands) && b < |bands|
  {
    u.propagation.dbPerMetre[b] * (Distance(u, s) + u.propagation.extra)
  }

  function Gain(u: Setup, bands: seq<Band>, s: Source, b: nat): real
    requires Ready(u, bands) && b < |bands|
  {
    u.math.pow10((DeckAt(u.directivity, Angle(u, s))[b] - PathLoss(u, bands, s, b)) / 10.0)
  }

  /** Pressure at the receiver in band `b` from one source radiating `power` in that band. */
  function Received(u: Setup, bands: seq<Band>, s: Source, b: nat, power: real): real
    requires Ready(u, bands) && b < |bands|
  {
    Spread(power, u.propagation.impedance, SphereArea(u.math.pi, Distance(u, s) + u.propagation.extra),
           Gain(u, bands, s, b))
  }

  lemma QuotientIs(p: real, d: real, q: real)
    requires d > 0.0 && q * d == p
    ensures p / d == q
  {
    assert (p / d) * d == p;
    Cancel(p / d, q, d);
  }

  lemma SpreadScales(power: real, k: real, z: real, area: real, gain: real)
    requires area > 0.0
    ensures Spread(k * power, z, area, gain) == k * Spread(power, z, area, gain)
  {
    var q := power * z / area;
    assert q * area == power * z;
    assert (k * q) * area == k * (q * area);
    assert (k * power) * z == k * (power * z);
    QuotientIs((k * power) * z, area, k * q);
    assert (k * q) * gain == k * (q * gain);
  }

  lemma SpreadSign(power: real, z: real, area: real, gain: real)
    requires area > 0.0 && z > 0.0 && gain > 0.0
    ensures power > 0.0 ==> Spread(power, z, area, gain) > 0.0
    ensures power == 0.0 ==> Spread(power, z, area, gain) == 0.0
  {
    if power > 0.0 {
      PositiveProduct(power, z);
      PositiveQuotient(power * z, area);
      PositiveProduct(power * z / area, gain);
    } else if power == 0.0 {
      QuotientIs(power * z, area, 0.0);
    }
  }

  /** Received pressure is linear in the power. */
  lemma ReceivedScales(u: Setup, bands: seq<Band>, s: Source, b: nat, power: real, k: real, received: real)
    requires Ready(u, bands) && b < |bands| && received == Received(u, bands, s, b, power)
    ensures Received(u, bands, s, b, k * power) == k * received
  {
    hide Spread, SphereArea, Gain, Distance;
    SpreadScales(power, k, u.propagation.impedance, SphereArea(u.math.pi, Distance(u, s) + u.propagation.extra),
                 Gain(u, bands, s, b));
  }

  lemma ReceivedSign(u: Setup, bands: seq<Band>, s: Source, b: nat, power: real)
    requires Ready(u, bands) && b < |bands|
    ensures power > 0.0 ==> Received(u, bands, s, b, power) > 0.0
    ensures power == 0.0 ==> Received(u, bands, s, b, power) == 0.0
  {
    hide Spread, SphereArea, Distance;
    SpreadSign(power, u.propagation.impedance, SphereArea(u.math.pi, Distance(u, s) + u.propagation.extra),
               Gain(u, bands, s, b));
  }

  // ---------------------------------------------------------------- the two sums over sources

  /** Power of one source in one band when all sources share the band fractions. */
  function SharedPower(power: real, sourceFraction: real, bandFraction: real): real {
    power * sourceFraction * bandFraction
  }

  /** Power of one source in one band when the source has a band fraction of its own. */
  function OwnPower(power: real, fraction: real): real {
    power * fraction
  }

  /** Contributions to band `b` when each source splits its power by the common band fractions. */
  ghost function FreeTerms(u: Setup, a: Allocation, shape: Shape, b: nat): (r: Vec)
    requires Ready(u, shape.bands) && b < |shape.bands| == |shape.fractions|
    ensures |r| == |a|
    ensures forall s :: 0 <= s < |r| ==> r[s] == FreeTerm(u, a[s], shape, b)
  {
    seq(|a|, s requires 0 <= s < |a| => FreeTerm(u, a[s], shape, b))
  }

  function FreeTerm(u: Setup, source: Source, shape: Shape, b: nat): real
    requires Ready(u, shape.bands) && b < |shape.bands| == |shape.fractions|
  {
    Received(u, shape.bands, source, b, SharedPower(AcousticPower(u.exit), source.power, shape.fractions[b]))
  }

  /** Contributions to band `b` when each source has band fractions of its own. */
  ghost function WeightedTerms(u: Setup, a: Allocation, w: BandWeights, b: nat): (r: Vec)
    requires Ready(u, w.bands) && ValidWeights(w) && |w.fractions| == |a| && b < |w.bands|
    ensures |r| == |a|
    ensures forall s :: 0 <= s < |r| ==> r[s] == WeightedTerm(u, a[s], w, s, b)
  {
    seq(|a|, s requires 0 <= s < |a| => WeightedTerm(u, a[s], w, s, b))
  }

  function WeightedTerm(u: Setup, source: Source, w: BandWeights, s: nat, b: nat): real
    requires Ready(u, w.bands) && ValidWeights(w) && s < |w.fractions| && b < |w.bands|
  {
    Received(u, w.bands, source, b, OwnPower(AcousticPower(u.exit), w.fractions[s][b]))
  }

  ghost function FreePressure(u: Setup, a: Allocation, shape: Shape, b: nat): real
    requires Ready(u, shape.bands) && b < |shape.bands| == |shape.fractions|
  {
    Sum(FreeTerms(u, a, shape, b))
  }

  ghost function WeightedPressure(u: Setup, a: Allocation, w: BandWeights, b: nat): real
    requires Ready(u, w.bands) && ValidWeights(w) && |w.fractions| == |a| && b < |w.bands|
  {
    Sum(WeightedTerms(u, a, w, b))
  }

  /** Every band has positive pressure at the receiver. */
  ghost predicate FreeFieldHeard(u: Setup, a: Allocation, shape: Shape)
    requires Ready(u, shape.bands) && |shape.bands| == |shape.fractions|
  {
    forall b :: 0 <= b < |shape.bands| ==> FreePressure(u, a, shape, b) > 0.0
  }

  ghost predicate SourceBandHeard(u: Setup, a: Allocation, w: BandWeights)
    requires Ready(u, w.bands) && ValidWeights(w) && |w.fractions| == |a|
  {
    forall b :: 0 <= b < |w.bands| ==> WeightedPressure(u, a, w, b) > 0.0
  }

  function Level(m: Math, pressure: real): real {
    10.0 * m.log10(pressure / (REFERENCE_PRESSURE * REFERENCE_PRESSURE))
  }

  /** One level per band; refused when any band pressure is not positive. */
  method ToLevels(m: Math, pressure: seq<real>) returns (r: Result<seq<real>, AcousticsError>)
    ensures r.Ok? <==> forall b :: 0 <= b < |pressure| ==> pressure[b] > 0.0
    ensures r.Ok? ==> |r.value| == |pressure| && forall b :: 0 <= b < |pressure| ==> r.value[b] == Level(m, pressure[b])
    ensures r.Err? ==> r.error == NonPositive
  {
    var levels: seq<real> := [];
    for b := 0 to |pressure|
      invariant |levels| == b
      invariant forall k :: 0 <= k < b ==> pressure[k] > 0.0 && levels[k] == Level(m, pressure[k])
    {
      if pressure[b] <= 0.0 {
        return Err(NonPositive);
      }
      levels := levels + [Level(m, pressure[b])];
    }
    return Ok(levels);
  }

  datatype Spectrum = Spectrum(bands: seq<Band>, levels: seq<real>)

  /** Every band is wider than nothing. */
  predicate EdgesOrdered(bands: seq<Band>) {
    forall b :: 0 <= b < |bands| ==> bands[b].lower < bands[b].upper
  }

  /** The first fault of a spectrum's grid from band `i` on; unlike for a deck, edges must be in order. */
  function GridFault(bands: seq<Band>, i: nat): Option<AcousticsError>
    requires i <= |bands|
    decreases |bands| - i
  {
    if i == |bands| then None
    else if bands[i].center <= 0.0 || bands[i].lower <= 0.0 || bands[i].upper <= 0.0 then Some(NonPositive)
    else if bands[i].lower >= bands[i].upper then Some(NonIncreasingBands)
    else if i > 0 && bands[i].center <= bands[i - 1].center then Some(NonIncreasingBands)
    else GridFault(bands, i + 1)
  }

  function SpectrumFault(bands: seq<Band>, count: nat): Option<AcousticsError> {
    if |bands| == 0 then Some(Empty) else if |bands| != count then Some(LengthMismatch) else GridFault(bands, 0)
  }

  /** Accepts exactly one level for each band of a valid grid whose edges are in order. */
  method NewSpectrum(bands: seq<Band>, levels: seq<real>) returns (r: Result<Spectrum, AcousticsError>)
    ensures r.Ok? <==> ValidBands(bands) && |bands| == |levels| && EdgesOrdered(bands)
    ensures r.Ok? ==> r.value == Spectrum(bands, levels)
    ensures r.Err? ==> SpectrumFault(bands, |levels|) == Some(r.error)
  {
    if |bands| == 0 {
      return Err(Empty);
    }
    if |bands| != |levels| {
      return Err(LengthMismatch);
    }
    for i := 0 to |bands|
      invariant forall k :: 0 <= k < i ==> bands[k].center > 0.0 && bands[k].lower > 0.0 && bands[k].upper > 0.0
      invariant forall k :: 0 <= k < i ==> bands[k].lower < bands[k].upper
      invariant forall k :: 0 < k < i ==> bands[k - 1].center < bands[k].center
      invariant GridFault(bands, 0) == GridFault(bands, i)
    {
      if bands[i].center <= 0.0 || bands[i].lower <= 0.0 || bands[i].upper <= 0.0 {
        return Err(NonPositive);
      }
      if bands[i].lower >= bands[i].upper || (i > 0 && bands[i].center <= bands[i - 1].center) {
        return Err(NonIncreasingBands);
      }
    }
    return Ok(Spectrum(bands, levels));
  }

  /** On a grid that shapes and decks accept, only the order of the edges is left to fault. */
  lemma {:induction false} OnlyEdgesFault(bands: seq<Band>, i: nat)
    requires ValidBands(bands) && i <= |bands|
    ensures GridFault(bands, i) == if forall b :: i <= b < |bands| ==> bands[b].lower < bands[b].upper then None
                                   else Some(NonIncreasingBands)
    decreases |bands| - i
  {
    if i < |bands| {
      OnlyEdgesFault(bands, i + 1);
    }
  }

  /** The levels of a spectrum, once every pressure is known. */
  method SpectrumOf(m: Math, bands: seq<Band>, pressure: seq<real>) returns (r: Result<Spectrum, AcousticsError>)
    requires ValidBands(bands) && |pressure| == |bands|
    ensures r.Ok? <==> EdgesOrdered(bands) && forall b :: 0 <= b < |pressure| ==> pressure[b] > 0.0
    ensures r.Ok? ==> r.value.bands == bands && |r.value.levels| == |bands|
                      && forall b :: 0 <= b < |bands| ==> r.value.levels[b] == Level(m, pressure[b])
    ensures r.Err? ==> r.error == if forall b :: 0 <= b < |pressure| ==> pressure[b] > 0.0 then NonIncreasingBands
                                  else NonPositive
  {
    var levels := ToLevels(m, pressure);
    if levels.Err? {
      return Err(levels.error);
    }
    OnlyEdgesFault(bands, 0);
    r := NewSpectrum(bands, levels.value);
  }

  /** The fault an environment is refused for, in the order of the checks. */
  function EnvironmentFault(u: Setup): Option<AcousticsError> {
    if u.exit.massFlow <= 0.0 || u.exit.velocity <= 0.0 || u.exit.diameter <= 0.0 then Some(NonPositive)
    else if !(0.0 <= u.exit.efficiency <= 1.0) then Some(InvalidFraction)
    else if u.exit.efficiency == 0.0 then Some(NonPositive)
    else if u.receiver.axial < 0.0 then Some(Negative)
    else if u.receiver.radial <= 0.0 || u.propagation.impedance <= 0.0 then Some(NonPositive)
    else if u.propagation.extra < 0.0 then Some(Negative)
    else
      var fault := BandsFault(u.propagation.bands, |u.propagation.dbPerMetre|);
      if fault.Some? then fault
      else if exists i :: 0 <= i < |u.propagation.dbPerMetre| && u.propagation.dbPerMetre[i] < 0.0 then Some(Negative)
      else None
  }

  method ValidateEnvironment(u: Setup) returns (fault: Result<(), AcousticsError>)
    ensures fault.Ok? <==> ValidEnvironment(u)
    ensures EnvironmentFault(u) == if fault.Err? then Some(fault.error) else None
  {
    hide BandFault;
    if u.exit.massFlow <= 0.0 || u.exit.velocity <= 0.0 || u.exit.diameter <= 0.0 {
      return Err(NonPositive);
    }
    if u.exit.efficiency < 0.0 || u.exit.efficiency > 1.0 {
      return Err(InvalidFraction);
    }
    if u.exit.efficiency == 0.0 {
      return Err(NonPositive);
    }
    if u.receiver.axial < 0.0 {
      return Err(Negative);
    }
    if u.receiver.radial <= 0.0 || u.propagation.impedance <= 0.0 {
      return Err(NonPositive);
    }
    if u.propagation.extra < 0.0 {
      return Err(Negative);
    }
    fault := CheckBands(u.propagation.bands, |u.propagation.dbPerMetre|);
    if fault.Err? {
      return;
    }
    for i := 0 to |u.propagation.dbPerMetre|
      invariant forall k :: 0 <= k < i ==> u.propagation.dbPerMetre[k] >= 0.0
    {
      if u.propagation.dbPerMetre[i] < 0.0 {
        return Err(Negative);
      }
    }
    return Ok(());
  }

  /** The free-field evaluator: band pressures accumulated source by source, then turned into levels. */
  method EvaluateFreeField(u: Setup, a: Allocation, shape: Shape) returns (r: Result<Spectrum, AcousticsError>)
    requires ValidMath(u.math) && ValidDeck(u.directivity) && ValidAllocation(a) && ValidShape(shape)
    ensures r.Ok? <==> ValidSetup(u, shape.bands) && EdgesOrdered(shape.bands) && FreeFieldHeard(u, a, shape)
    ensures r.Ok? ==> r.value.bands == shape.bands && |r.value.levels| == |shape.bands|
                      && forall b :: 0 <= b < |shape.bands| ==>
                           r.value.levels[b] == Level(u.math, FreePressure(u, a, shape, b))
    ensures r.Err? ==>
              r.error == if EnvironmentFault(u).Some? then EnvironmentFault(u).value
                         else if !ValidSetup(u, shape.bands) then BandGridMismatch
                         else if FreeFieldHeard(u, a, shape) then NonIncreasingBands else NonPositive
  {
    hide Sum, Received, DeckAt, AcousticPower, SharedPower, OwnPower, ValidMath, ValidDeck, EdgesOrdered, BandsFault,
         EnvironmentFault, ValidAllocation;
    var fault := ValidateEnvironment(u);
    if fault.Err? {
      return Err(fault.error);
    }
    if u.directivity.bands != shape.bands || u.propagation.bands != shape.bands {
      return Err(BandGridMismatch);
    }
    var n := |shape.bands|;
    var power := AcousticPower(u.exit);
    var pressure := seq(n, _ => 0.0);
    forall b | 0 <= b < n ensures pressure[b] == Sum(FreeTerms(u, a, shape, b)[..0]) {
      NoSum(FreeTerms(u, a, shape, b)[..0]);
    }
    for s := 0 to |a|
      invariant |pressure| == n && forall b :: 0 <= b < n ==> pressure[b] == Sum(FreeTerms(u, a, shape, b)[..s])
    {
      for b := 0 to n
        invariant |pressure| == n
        invariant forall k :: 0 <= k < b ==> pressure[k] == Sum(FreeTerms(u, a, shape, k)[..s + 1])
        invariant forall k :: b <= k < n ==> pressure[k] == Sum(FreeTerms(u, a, shape, k)[..s])
      {
        SumNext(FreeTerms(u, a, shape, b), s);
        var sourceBandPower := SharedPower(power, a[s].power, shape.fractions[b]);
        pressure := pressure[b := pressure[b] + Received(u, shape.bands, a[s], b, sourceBandPower)];
      }
    }
    forall b | 0 <= b < n ensures pressure[b] == FreePressure(u, a, shape, b) {
      assert FreeTerms(u, a, shape, b)[..|a|] == FreeTerms(u, a, shape, b);
    }
    r := SpectrumOf(u.math, shape.bands, pressure);
  }

  /** The source-band evaluator: the same accumulation with fractions of each source's own. */
  method EvaluateSourceBandWeighted(u: Setup, a: Allocation, w: BandWeights)
    returns (r: Result<Spectrum, AcousticsError>)
    requires ValidMath(u.math) && ValidDeck(u.directivity) && ValidAllocation(a) && ValidWeights(w)
    ensures r.Ok? <==> ValidSetup(u, w.bands) && |a| == |w.fractions| && EdgesOrdered(w.bands)
                       && SourceBandHeard(u, a, w)
    ensures r.Ok? ==> r.value.bands == w.bands && |r.value.levels| == |w.bands|
                      && forall b :: 0 <= b < |w.bands| ==>
                           r.value.levels[b] == Level(u.math, WeightedPressure(u, a, w, b))
    ensures r.Err? ==>
              r.error == if EnvironmentFault(u).Some? then EnvironmentFault(u).value
                         else if |a| != |w.fractions| then LengthMismatch
                         else if !ValidSetup(u, w.bands) then BandGridMismatch
                         else if SourceBandHeard(u, a, w) then NonIncreasingBands else NonPositive
  {
    hide Sum, Received, DeckAt, AcousticPower, SharedPower, OwnPower, ValidMath, ValidDeck, EdgesOrdered, BandsFault,
         EnvironmentFault, ValidAllocation;
    var fault := ValidateEnvironment(u);
    if fault.Err? {
      return Err(fault.error);
    }
    if |a| != |w.fractions| {
      return Err(LengthMismatch);
    }
    if u.directivity.bands != w.bands || u.propagation.bands != w.bands {
      return Err(BandGridMismatch);
    }
    var n := |w.bands|;
    var power := AcousticPower(u.exit);
    var pressure := seq(n, _ => 0.0);
    forall b | 0 <= b < n ensures pressure[b] == Sum(WeightedTerms(u, a, w, b)[..0]) {
      NoSum(WeightedTerms(u, a, w, b)[..0]);
    }
    for s := 0 to |a|
      invariant |pressure| == n && forall b :: 0 <= b < n ==> pressure[b] == Sum(WeightedTerms(u, a, w, b)[..s])
    {
      for b := 0 to n
        invariant |pressure| == n
        invariant forall k :: 0 <= k < b ==> pressure[k] == Sum(WeightedTerms(u, a, w, k)[..s + 1])
        invariant forall k :: b <= k < n ==> pressure[k] == Sum(WeightedTerms(u, a, w, k)[..s])
      {
        SumNext(WeightedTerms(u, a, w, b), s);
        var sourceBandPower := OwnPower(power, w.fractions[s][b]);
        pressure := pressure[b := pressure[b] + Received(u, w.bands, a[s], b, sourceBandPower)];
      }
    }
    forall b | 0 <= b < n ensures pressure[b] == WeightedPressure(u, a, w, b) {
      assert WeightedTerms(u, a, w, b)[..|a|] == WeightedTerms(u, a, w, b);
    }
    r := SpectrumOf(u.math, w.bands, pressure);
  }

  // ---------------------------------------------------------------- agreement and positivity

  /** The separable weight matrix: source fraction times band fraction. */
  function Separable(a: Allocation, fractions: Vec): (rows: seq<Vec>)
    ensures |rows| == |a|
    ensures forall s :: 0 <= s < |a| ==> rows[s] == Scale(a[s].power, fractions)
  {
    seq(|a|, s requires 0 <= s < |a| => Scale(a[s].power, fractions))
  }

  lemma SeparableSum(a: Allocation, fractions: Vec)
    ensures Sum(RowSums(Separable(a, fractions))) == Sum(fractions) * Sum(Powers(a))
  {
    hide Sum, Scale;
    var sums := RowSums(Separable(a, fractions));
    var scaled := Scale(Sum(fractions), Powers(a));
    forall s | 0 <= s < |a|
      ensures sums[s] == scaled[s]
    {
      SumScale(a[s].power, fractions);
    }
    assert sums == scaled;
    SumScale(Sum(fractions), Powers(a));
  }

  lemma SeparableSign(a: Allocation, shape: Shape)
    requires ValidShape(shape) && ValidAllocation(a)
    ensures NonNegativeRows(Separable(a, shape.fractions), |shape.bands|)
  {
    hide Sum;
    forall s, b | 0 <= s < |a| && 0 <= b < |shape.bands|
      ensures Separable(a, shape.fractions)[s][b] >= 0.0
    {
      NonNegativeProduct(a[s].power, shape.fractions[b]);
    }
  }

  lemma SeparableValid(a: Allocation, shape: Shape, w: BandWeights, total: real)
    requires ValidShape(shape) && ValidAllocation(a) && w.bands == shape.bands && total > 0.0
    requires w.fractions == DividedRows(Separable(a, shape.fractions), total)
    ensures ValidWeights(w) && |w.fractions| == |a|
    ensures forall s, b :: 0 <= s < |a| && 0 <= b < |w.bands| ==>
              w.fractions[s][b] * total == a[s].power * shape.fractions[b]
  {
    hide Sum;
    SeparableSign(a, shape);
    DividedRowsSign(Separable(a, shape.fractions), total, |w.bands|);
    forall s, b | 0 <= s < |a| && 0 <= b < |w.bands|
      ensures w.fractions[s][b] * total == a[s].power * shape.fractions[b]
    {
      DividedBack(a[s].power * shape.fractions[b], total);
    }
  }

  lemma DividedBack(p: real, total: real)
    requires total > 0.0
    ensures (p / total) * total == p
  {
  }

  lemma TermsProportional(u: Setup, source: Source, shape: Shape, w: BandWeights, total: real, s: nat, b: nat)
    requires Ready(u, shape.bands) && ValidWeights(w) && w.bands == shape.bands && s < |w.fractions|
    requires b < |shape.bands| == |shape.fractions| && w.fractions[s][b] * total == source.power * shape.fractions[b]
    ensures FreeTerm(u, source, shape, b) == total * WeightedTerm(u, source, w, s, b)
  {
    hide Received, DeckAt, AcousticPower, Ready, SharedPower, OwnPower;
    var power, f := AcousticPower(u.exit), w.fractions[s][b];
    SamePower(power, source.power, shape.fractions[b], f, total);
    var own, term := OwnPower(power, f), WeightedTerm(u, source, w, s, b);
    ReceivedScales(u, w.bands, source, b, own, total, term);
    var scaled := total * own;
    assert SharedPower(power, source.power, shape.fractions[b]) == scaled;
    assert Received(u, w.bands, source, b, scaled) == total * term;
    assert FreeTerm(u, source, shape, b)
        == Received(u, w.bands, source, b, SharedPower(power, source.power, shape.fractions[b]));
    assert FreeTerm(u, source, shape, b) == Received(u, w.bands, source, b, scaled);
  }

  /**
   * With separable weights divided by a total, every band pressure of the source-band evaluator is the
   * free-field pressure divided by that total.
   */
  lemma PressuresProportional(u: Setup, a: Allocation, shape: Shape, w: BandWeights, total: real, b: nat)
    requires Ready(u, shape.bands) && ValidShape(shape) && ValidAllocation(a) && w.bands == shape.bands
    requires total > 0.0 && w.fractions == DividedRows(Separable(a, shape.fractions), total) && b < |w.bands|
    ensures ValidWeights(w) && |w.fractions| == |a|
    ensures total * WeightedPressure(u, a, w, b) == FreePressure(u, a, shape, b)
  {
    hide Sum, FreeTerm, WeightedTerm, Ready, ValidShape, DividedRows, Separable;
    SeparableValid(a, shape, w, total);
    ShapeSized(shape);
    var free, weighted := FreeTerms(u, a, shape, b), WeightedTerms(u, a, w, b);
    var scaled := Scale(total, weighted);
    forall s | 0 <= s < |a|
      ensures free[s] == scaled[s]
    {
      TermsProportional(u, a[s], shape, w, total, s, b);
    }
    assert free == scaled;
    SumScale(total, weighted);
  }

  lemma ShapeSized(shape: Shape)
    requires ValidShape(shape)
    ensures |shape.bands| == |shape.fractions| > 0
  {
  }

  lemma SamePower(power: real, p: real, q: real, f: real, total: real)
    requires f * total == p * q
    ensures SharedPower(power, p, q) == total * OwnPower(power, f)
  {
    assert power * p * q == power * (p * q);
    assert power * (f * total) == total * (power * f);
  }

  function Total(a: Allocation, shape: Shape): real {
    Sum(shape.fractions) * Sum(Powers(a))
  }

  lemma TotalPositive(a: Allocation, shape: Shape)
    requires ValidAllocation(a) && ValidShape(shape)
    ensures Total(a, shape) > 0.0
  {
    hide Sum;
    var x, y := Sum(shape.fractions), Sum(Powers(a));
    PositiveProduct(x, y);
    assert Total(a, shape) == x * y;
  }

  /** The total is one up to what the constructors tolerate of the two sums. */
  lemma TotalNearOne(a: Allocation, shape: Shape)
    requires ValidAllocation(a) && ValidShape(shape)
    ensures 0.999999999998 <= Total(a, shape) <= 1.0000000000021
  {
    hide Sum;
    var x, y := Sum(shape.fractions), Sum(Powers(a));
    NearProduct(x, y);
    assert Total(a, shape) == x * y;
  }

  lemma NearProduct(x: real, y: real)
    requires 0.999999999999 <= x <= 1.000000000001 && 0.999999999999 <= y <= 1.000000000001
    ensures 0.999999999998 <= x * y <= 1.0000000000021
  {
    NonNegativeProduct(x - 0.999999999999, y);
    NonNegativeProduct(1.000000000001 - x, y);
  }

  /** The separable weights as normalisation leaves them. */
  function SeparableWeights(a: Allocation, shape: Shape): BandWeights
    requires ValidAllocation(a) && ValidShape(shape)
  {
    TotalPositive(a, shape);
    BandWeights(shape.bands, DividedRows(Separable(a, shape.fractions), Total(a, shape)))
  }

  /**
   * For every valid set-up, both evaluators give the same band pressures exactly when the fractions' total
   * is one.
   */
  lemma EvaluatorsAgreeExactly(u: Setup, a: Allocation, shape: Shape)
    requires Ready(u, shape.bands) && ValidAllocation(a) && ValidShape(shape)
    ensures var w := SeparableWeights(a, shape);
            ValidWeights(w) && |w.fractions| == |a| && w.bands == shape.bands
    ensures (forall b :: 0 <= b < |shape.bands| ==>
               WeightedPressure(u, a, SeparableWeights(a, shape), b) == FreePressure(u, a, shape, b))
            <==> Total(a, shape) == 1.0
  {
    hide Sum, FreePressure, WeightedPressure, Total, DividedRows, Separable, Ready, ValidAllocation, ValidShape;
    var total, w := Total(a, shape), SeparableWeights(a, shape);
    ShapeSized(shape);
    TotalPositive(a, shape);
    SeparableValid(a, shape, w, total);
    forall b | 0 <= b < |shape.bands|
      ensures total * WeightedPressure(u, a, w, b) == FreePressure(u, a, shape, b)
    {
      PressuresProportional(u, a, shape, w, total, b);
    }
    var b := SomeBand(shape);
    PressurePositive(u, a, shape, b);
    UnitFactor(total, WeightedPressure(u, a, w, b), FreePressure(u, a, shape, b));
  }

  lemma SomeBand(shape: Shape) returns (b: nat)
    requires ValidShape(shape)
    ensures b < |shape.bands| == |shape.fractions| && shape.fractions[b] > 0.0
  {
    if b' :| 0 <= b' < |shape.fractions| && shape.fractions[b'] > 0.0 {
      b := b';
    } else {
      assert shape.fractions == Zeros(|shape.fractions|);
      SumZeros(|shape.fractions|);
      assert false;
    }
  }

  lemma UnitFactor(k: real, x: real, y: real)
    requires k * x == y && y > 0.0
    ensures x == y <==> k == 1.0
  {
    if x == y {
      Cancel(k, 1.0, y);
    }
  }

  lemma FreeTermSign(u: Setup, source: Source, shape: Shape, b: nat)
    requires Ready(u, shape.bands) && b < |shape.bands| == |shape.fractions|
    requires source.power >= 0.0 && shape.fractions[b] >= 0.0
    ensures FreeTerm(u, source, shape, b) >= 0.0
    ensures shape.fractions[b] == 0.0 ==> FreeTerm(u, source, shape, b) == 0.0
    ensures shape.fractions[b] > 0.0 && source.power > 0.0 ==> FreeTerm(u, source, shape, b) > 0.0
  {
    hide Received, DeckAt, AcousticPower;
    PowerPositive(u.exit);
    ThreeFactors(AcousticPower(u.exit), source.power, shape.fractions[b]);
    ReceivedSign(u, shape.bands, source, b, SharedPower(AcousticPower(u.exit), source.power, shape.fractions[b]));
  }

  /** A band has positive pressure exactly when its fraction is positive. */
  lemma PressurePositive(u: Setup, a: Allocation, shape: Shape, b: nat)
    requires Ready(u, shape.bands) && ValidAllocation(a) && ValidShape(shape) && b < |shape.bands|
    ensures FreePressure(u, a, shape, b) > 0.0 <==> shape.fractions[b] > 0.0
  {
    hide Sum, FreeTerm, Ready;
    var terms, f := FreeTerms(u, a, shape, b), shape.fractions[b];
    forall s | 0 <= s < |a|
      ensures terms[s] >= 0.0 && (f == 0.0 ==> terms[s] == 0.0)
      ensures f > 0.0 && a[s].power > 0.0 ==> terms[s] > 0.0
    {
      FreeTermSign(u, a[s], shape, b);
    }
    if f == 0.0 {
      assert terms == Zeros(|a|);
      SumZeros(|a|);
    } else {
      var s := SomeSource(a);
      PartOfSum(terms, s);
    }
  }

  lemma ThreeFactors(x: real, y: real, z: real)
    requires x > 0.0 && y >= 0.0 && z >= 0.0
    ensures y > 0.0 && z > 0.0 ==> SharedPower(x, y, z) > 0.0
    ensures y == 0.0 || z == 0.0 ==> SharedPower(x, y, z) == 0.0
  {
    if y > 0.0 && z > 0.0 {
      PositiveProduct(x, y);
      PositiveProduct(x * y, z);
    }
  }

  lemma SomeSource(a: Allocation) returns (s: nat)
    requires ValidAllocation(a)
    ensures s < |a| && a[s].power > 0.0
  {
    if s' :| 0 <= s' < |a| && a[s'].power > 0.0 {
      s := s';
    } else {
      assert Powers(a) == Zeros(|a|);
      SumZeros(|a|);
      assert false;
    }
  }

  lemma WeightedTermSign(u: Setup, source: Source, w: BandWeights, s: nat, b: nat)
    requires Ready(u, w.bands) && ValidWeights(w) && s < |w.fractions| && b < |w.bands|
    ensures WeightedTerm(u, source, w, s, b) >= 0.0
    ensures WeightedTerm(u, source, w, s, b) > 0.0 <==> w.fractions[s][b] > 0.0
  {
    hide Received, DeckAt, AcousticPower;
    var power, f := AcousticPower(u.exit), w.fractions[s][b];
    PowerPositive(u.exit);
    if f > 0.0 {
      PositiveProduct(power, f);
    } else {
      assert OwnPower(power, f) == 0.0;
    }
    ReceivedSign(u, w.bands, source, b, OwnPower(power, f));
  }

  /** A band has positive pressure exactly when some source has a positive fraction in it. */
  lemma WeightedPressurePositive(u: Setup, a: Allocation, w: BandWeights, b: nat)
    requires Ready(u, w.bands) && ValidWeights(w) && |w.fractions| == |a| && b < |w.bands|
    ensures WeightedPressure(u, a, w, b) > 0.0 <==> Radiated(w, b)
  {
    hide Sum, WeightedTerm, Ready;
    var terms := WeightedTerms(u, a, w, b);
    forall s | 0 <= s < |a|
      ensures terms[s] >= 0.0 && (terms[s] > 0.0 <==> w.fractions[s][b] > 0.0)
    {
      WeightedTermSign(u, a[s], w, s, b);
    }
    if s :| 0 <= s < |w.fractions| && w.fractions[s][b] > 0.0 {
      PartOfSum(terms, s);
    } else {
      assert terms == Zeros(|a|);
      SumZeros(|a|);
    }
  }

  /** What a caller can check before a source-band evaluation that is otherwise valid. */
  predicate SourceBandUsable(w: BandWeights)
    requires ValidWeights(w)
  {
    EdgesOrdered(w.bands) && forall b :: 0 <= b < |w.bands| ==> Radiated(w, b)
  }

  /** A source-band evaluation succeeds exactly when edges are in order and every band gets power from a source. */
  lemma SourceBandSucceeds(u: Setup, a: Allocation, w: BandWeights)
    requires Ready(u, w.bands) && ValidWeights(w) && |w.fractions| == |a|
    ensures EdgesOrdered(w.bands) && SourceBandHeard(u, a, w) <==> SourceBandUsable(w)
  {
    hide WeightedPressure, Ready;
    forall b | 0 <= b < |w.bands|
      ensures WeightedPressure(u, a, w, b) > 0.0 <==> Radiated(w, b)
    {
      WeightedPressurePositive(u, a, w, b);
    }
  }

  /** Some source has a positive fraction in the band. */
  predicate Radiated(w: BandWeights, b: nat)
    requires ValidWeights(w) && b < |w.bands|
  {
    exists s :: 0 <= s < |w.fractions| && w.fractions[s][b] > 0.0
  }

  /** What a caller can check before a free-field evaluation that is otherwise valid. */
  predicate FreeFieldUsable(shape: Shape) {
    EdgesOrdered(shape.bands) && forall b :: 0 <= b < |shape.fractions| ==> shape.fractions[b] > 0.0
  }

  /** A free-field evaluation succeeds exactly when edges are in order and every band has power. */
  lemma FreeFieldSucceeds(u: Setup, a: Allocation, shape: Shape)
    requires Ready(u, shape.bands) && ValidAllocation(a) && ValidShape(shape)
    ensures EdgesOrdered(shape.bands) && FreeFieldHeard(u, a, shape) <==> FreeFieldUsable(shape)
  {
    hide FreePressure;
    forall b | 0 <= b < |shape.bands|
      ensures FreePressure(u, a, shape, b) > 0.0 <==> shape.fractions[b] > 0.0
    {
      PressurePositive(u, a, shape, b);
    }
  }

  // ---------------------------------------------------------------- two set-ups

  /** One source near the origin and one band, a receiver beside it, and no absorption. */
  function OneBand(m: Math, band: Band, power: real): (Setup, Allocation, Shape) {
    (Setup(m, Exit(1.0, 1.0, 1.0, 1.0), Deck([band], [0.0], [[0.0]]), Receiver(0.0, 1.0),
           Propagation(1.0, [band], [0.0], 0.0)),
     [Source(0.0, power)], Shape([band], [1.0]))
  }

  lemma OneBandIsReady(m: Math, band: Band, power: real)
    requires ValidMath(m) && ValidBands([band]) && 0.0 <= power <= 1.0 && SumsToOne(power)
    ensures var (u, a, shape) := OneBand(m, band, power);
            Ready(u, shape.bands) && ValidAllocation(a) && ValidShape(shape) && Total(a, shape) == power
  {
    var (u, a, shape) := OneBand(m, band, power);
    SumOne(power);
    SumOne(1.0);
    assert Powers(a) == [power];
  }

  lemma SumOne(x: real)
    ensures Sum([x]) == x
  {
    assert [x][..0] == [];
  }

  /**
   * With the source's fraction just below one, both evaluators accept the set-up and give different
   * pressures, whatever the math library.
   */
  lemma EvaluatorsDiffer(m: Math)
    requires ValidMath(m)
    ensures var (u, a, shape) := OneBand(m, Band(1.0, 0.5, 2.0), 0.9999999999995);
            && Ready(u, shape.bands) && ValidAllocation(a) && ValidShape(shape)
            && var w := SeparableWeights(a, shape);
            && ValidWeights(w) && |w.fractions| == |a| && FreeFieldUsable(shape) && SourceBandUsable(w)
            && WeightedPressure(u, a, w, 0) != FreePressure(u, a, shape, 0)
  {
    hide Ready, ValidAllocation, ValidMath, Total, WeightedPressure, FreePressure, DividedRows, Separable;
    var band, power := Band(1.0, 0.5, 2.0), 0.9999999999995;
    var (u, a, shape) := OneBand(m, band, power);
    OneBandIsReady(m, band, power);
    EvaluatorsAgreeExactly(u, a, shape);
    var w := SeparableWeights(a, shape);
    SameBandsUsable(u, a, shape);
  }

  /** The separable weights of a usable shape are usable. */
  lemma SameBandsUsable(u: Setup, a: Allocation, shape: Shape)
    requires Ready(u, shape.bands) && ValidAllocation(a) && ValidShape(shape)
    ensures ValidWeights(SeparableWeights(a, shape)) && |SeparableWeights(a, shape).fractions| == |a|
    ensures FreeFieldUsable(shape) <==> SourceBandUsable(SeparableWeights(a, shape))
  {
    hide Ready, ValidAllocation, FreePressure, WeightedPressure, Total, DividedRows, Separable, Radiated;
    var total, w := Total(a, shape), SeparableWeights(a, shape);
    ShapeSized(shape);
    TotalPositive(a, shape);
    SeparableValid(a, shape, w, total);
    forall b | 0 <= b < |shape.bands|
      ensures shape.fractions[b] > 0.0 <==> Radiated(w, b)
    {
      PressuresProportional(u, a, shape, w, total, b);
      PressurePositive(u, a, shape, b);
      WeightedPressurePositive(u, a, w, b);
      SameSignScaled(total, WeightedPressure(u, a, w, b), FreePressure(u, a, shape, b));
    }
  }

  lemma SameSignScaled(k: real, x: real, y: real)
    requires k > 0.0 && k * x == y
    ensures x > 0.0 <==> y > 0.0
  {
    if x > 0.0 {
      PositiveProduct(k, x);
    } else {
      NonNegativeProduct(k, -x);
    }
  }

  /**
   * Shapes, decks and propagation accept a band without width, here with both edges at the centre, and then
   * no evaluation on it can succeed, although every fraction is positive.
   */
  lemma FlatBandIsAdmitted(m: Math)
    requires ValidMath(m)
    ensures var (u, a, shape) := OneBand(m, Band(1.0, 1.0, 1.0), 1.0);
            && Ready(u, shape.bands) && ValidAllocation(a) && ValidShape(shape) && FreeFieldHeard(u, a, shape)
            && !FreeFieldUsable(shape) && ValidWeights(SeparableWeights(a, shape))
            && !SourceBandUsable(SeparableWeights(a, shape))
  {
    hide Ready, ValidAllocation, ValidMath, Total, FreePressure, DividedRows, Separable;
    var band := Band(1.0, 1.0, 1.0);
    var (u, a, shape) := OneBand(m, band, 1.0);
    OneBandIsReady(m, band, 1.0);
    PressurePositive(u, a, shape, 0);
    SameBandsUsable(u, a, shape);
    assert shape.bands[0] == band && !(band.lower < band.upper);
  }
}
