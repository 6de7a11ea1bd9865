/** Laws of the received pressures and levels: spherical spreading, directivity and absorption in decibels. */
module SpectraLaws {
  import opened Reals
  import opened LinearAlgebra
  import opened Directivity
  import opened SourceAllocation
  import opened StationSpectra

  /** Square roots, powers of ten and decimal logarithms behave as such. */
  ghost predicate ProperMath(m: Math) {
    && ValidMath(m)
    && (forall x: real :: x >= 0.0 ==> m.sqrt(x) >= 0.0 && m.sqrt(x) * m.sqrt(x) == x)
    && m.pow10(0.0) == 1.0 && (forall x: real, y: real :: PowersMultiply(m, x, y))
    && (forall x: real, y: real :: x <= y ==> m.pow10(x) <= m.pow10(y))
    && (forall x: real :: m.log10(m.pow10(x)) == x) && (forall x: real :: x > 0.0 ==> m.pow10(m.log10(x)) == x)
  }

  predicate PowersMultiply(m: Math, x: real, y: real) {
    m.pow10(x + y) == m.pow10(x) * m.pow10(y)
  }

  lemma PowerOfSum(m: Math, x: real, y: real, sum: real)
    requires ProperMath(m) && sum == x + y
    ensures m.pow10(sum) == m.pow10(x) * m.pow10(y)
  {
    assert PowersMultiply(m, x, y);
  }

  lemma Logs(m: Math, x: real)
    requires ProperMath(m)
    ensures m.log10(m.pow10(x)) == x
    ensures x > 0.0 ==> m.pow10(m.log10(x)) == x
    ensures m.pow10(0.0) == 1.0 && m.log10(1.0) == 0.0
    ensures x <= 0.0 ==> 0.0 < m.pow10(x) <= 1.0
  {
    assert m.log10(m.pow10(0.0)) == 0.0;
  }

  // ---------------------------------------------------------------- distance and angle

  /** The distance is the Euclidean one. */
  lemma DistanceSquared(u: Setup, s: Source)
    requires ValidReceiver(u.receiver) && ProperMath(u.math)
    ensures var dx := u.receiver.axial - s.axial;
            Distance(u, s) * Distance(u, s) == dx * dx + u.receiver.radial * u.receiver.radial
  {
    SumOfSquares(u.receiver.axial - s.axial, u.receiver.radial);
  }

  /** The angle is the one at which the receiver is seen from the source, off the nearer direction of the axis. */
  lemma AngleMeaning(u: Setup, s: Source, cosine: real -> real, sine: real -> real)
    requires ValidReceiver(u.receiver) && ProperMath(u.math)
    requires forall y: real, x: real :: y > 0.0 && x >= 0.0 ==> Polar(u.math, cosine, sine, y, x)
    ensures cosine(Angle(u, s)) * Distance(u, s) == Abs(u.receiver.axial - s.axial)
    ensures sine(Angle(u, s)) * Distance(u, s) == u.receiver.radial
  {
    hide ProperMath, SquaredDistance;
    var x, y := Abs(u.receiver.axial - s.axial), u.receiver.radial;
    assert Polar(u.math, cosine, sine, y, x);
    SameSquares(u.receiver.axial - s.axial, x, y);
    assert Angle(u, s) == u.math.atan2Degrees(y, x);
  }

  lemma SameSquares(dx: real, x: real, y: real)
    requires x == Abs(dx)
    ensures SquaredDistance(dx, y) == SquaredDistance(x, y)
  {
  }

  /** The angle that the library returns for `y` and `x` is the one of that right triangle. */
  predicate Polar(m: Math, cosine: real -> real, sine: real -> real, y: real, x: real) {
    var (angle, r) := (m.atan2Degrees(y, x), m.sqrt(SquaredDistance(x, y)));
    cosine(angle) * r == x && sine(angle) * r == y
  }

  // ---------------------------------------------------------------- one source in the open

  lemma Spreads(power: real, z: real, pi: real, r: real, area: real)
    requires pi > 0.0 && r > 0.0 && area == SphereArea(pi, r)
    ensures Spread(power, z, area, 1.0) * (4.0 * pi * (r * r)) == power * z
  {
    var q := power * z / area;
    assert q * area == power * z;
    assert area == 4.0 * pi * (r * r);
    assert Spread(power, z, area, 1.0) == q;
  }

  /** Without absorption and directivity the power times the impedance is the pressure over the whole sphere. */
  lemma ReceivedInTheOpen(u: Setup, bands: seq<Band>, s: Source, b: nat, power: real)
    requires Ready(u, bands) && ProperMath(u.math) && b < |bands|
    requires u.propagation.dbPerMetre[b] == 0.0 && DeckAt(u.directivity, Angle(u, s))[b] == 0.0
    ensures var r := Distance(u, s) + u.propagation.extra;
            Received(u, bands, s, b, power) * (4.0 * u.math.pi * (r * r)) == power * u.propagation.impedance
  {
    hide Spread, SphereArea, Distance, DeckAt;
    var r := Distance(u, s) + u.propagation.extra;
    assert Gain(u, bands, s, b) == 1.0 by {
      NoLoss(r);
      assert (0.0 - 0.0) / 10.0 == 0.0;
    }
    Spreads(power, u.propagation.impedance, u.math.pi, r, SphereArea(u.math.pi, r));
  }

  lemma NoLoss(r: real)
    ensures 0.0 * r == 0.0
  {
  }

  lemma SingleTerm(u: Setup, s: Source, shape: Shape, b: nat)
    requires Ready(u, shape.bands) && b < |shape.bands| == |shape.fractions|
    ensures FreePressure(u, [s], shape, b) == FreeTerm(u, s, shape, b)
  {
    hide FreeTerm, Ready;
    assert FreeTerms(u, [s], shape, b) == [FreeTerm(u, s, shape, b)];
    SumOne(FreeTerm(u, s, shape, b));
  }

  lemma SingleWeighted(u: Setup, s: Source, w: BandWeights, b: nat)
    requires Ready(u, w.bands) && ValidWeights(w) && |w.fractions| == 1 && b < |w.bands|
    ensures WeightedPressure(u, [s], w, b) == WeightedTerm(u, s, w, 0, b)
  {
    hide WeightedTerm, Ready, ValidWeights;
    assert WeightedTerms(u, [s], w, b) == [WeightedTerm(u, s, w, 0, b)];
    SumOne(WeightedTerm(u, s, w, 0, b));
  }

  /**
   * One source in the open: the pressure over a sphere through the receiver is the jet's acoustic power, the
   * efficiency's part of half the mass flow times the squared velocity, in that source and band, times the
   * impedance. The radius is the distance to the source plus the extra path.
   */
  lemma OneSourceInTheOpen(u: Setup, s: Source, shape: Shape, b: nat, r: real)
    requires Ready(u, shape.bands) && ProperMath(u.math) && b < |shape.bands| == |shape.fractions|
    requires u.propagation.dbPerMetre[b] == 0.0 && DeckAt(u.directivity, Angle(u, s))[b] == 0.0
    requires var dx, d := u.receiver.axial - s.axial, r - u.propagation.extra;
             d >= 0.0 && d * d == dx * dx + u.receiver.radial * u.receiver.radial
    ensures var e := u.exit;
            FreePressure(u, [s], shape, b) * (4.0 * u.math.pi * (r * r))
            == e.efficiency * (0.5 * e.massFlow * (e.velocity * e.velocity)) * s.power * shape.fractions[b]
               * u.propagation.impedance
  {
    hide Received, DeckAt, Ready, Distance, Angle;
    SingleTerm(u, s, shape, b);
    ReadyParts(u, shape.bands);
    DistanceSquared(u, s);
    SameRoot(Distance(u, s), r - u.propagation.extra);
    ReceivedInTheOpen(u, shape.bands, s, b, SharedPower(AcousticPower(u.exit), s.power, shape.fractions[b]));
    PowerForm(u.exit);
  }

  lemma PowerForm(e: Exit)
    ensures AcousticPower(e) == e.efficiency * (0.5 * e.massFlow * (e.velocity * e.velocity))
  {
  }

  lemma ReadyParts(u: Setup, bands: seq<Band>)
    requires Ready(u, bands)
    ensures ValidReceiver(u.receiver) && ValidMath(u.math) && u.propagation.extra >= 0.0
    ensures |u.propagation.dbPerMetre| == |bands|
  {
  }

  lemma SameRoot(x: real, y: real)
    requires x >= 0.0 && y >= 0.0 && x * x == y * y
    ensures x == y
  {
    if x < y {
      RootGap(x, y);
    } else if y < x {
      RootGap(y, x);
    }
  }

  lemma RootGap(x: real, y: real)
    requires 0.0 <= x < y
    ensures x * x < y * y
  {
    PositiveProduct(y - x, y + x);
  }

  // ---------------------------------------------------------------- directivity

  /** Every source is heard `d` decibels louder in band `b`, all else equal. */
  ghost predicate Louder(u: Setup, v: Setup, bands: seq<Band>, a: Allocation, b: nat, d: real)
    requires Ready(u, bands) && Ready(v, bands) && b < |bands|
  {
    && v == u.(directivity := v.directivity)
    && forall s :: 0 <= s < |a| ==>
         DeckAt(v.directivity, Angle(u, a[s]))[b] == DeckAt(u.directivity, Angle(u, a[s]))[b] + d
  }

  lemma GainShifts(m: Math, level: real, d: real, shifted: real)
    requires ProperMath(m) && shifted == level + d
    ensures m.pow10(shifted / 10.0) == m.pow10(d / 10.0) * m.pow10(level / 10.0)
  {
    PowerOfSum(m, d / 10.0, level / 10.0, shifted / 10.0);
  }

  lemma SpreadByGain(power: real, z: real, area: real, k: real, gain: real, shifted: real)
    requires area > 0.0 && shifted == k * gain
    ensures Spread(power, z, area, shifted) == k * Spread(power, z, area, gain)
  {
    var q := power * z / area;
    assert q * (k * gain) == k * (q * gain);
  }

  lemma GainOf(u: Setup, bands: seq<Band>, s: Source, b: nat, level: real)
    requires Ready(u, bands) && b < |bands|
    requires level == DeckAt(u.directivity, Angle(u, s))[b] - PathLoss(u, bands, s, b)
    ensures Gain(u, bands, s, b) == u.math.pow10(level / 10.0)
  {
    hide DeckAt, PathLoss, Angle;
  }

  lemma ReceivedByGain(u: Setup, bands: seq<Band>, s: Source, b: nat, power: real, area: real, gain: real)
    requires Ready(u, bands) && b < |bands|
    requires area == SphereArea(u.math.pi, Distance(u, s) + u.propagation.extra) && gain == Gain(u, bands, s, b)
    ensures area > 0.0 && Received(u, bands, s, b, power) == Spread(power, u.propagation.impedance, area, gain)
  {
    hide Spread, Distance, Gain;
  }

  /** Two set-ups at the same places: the pressures differ by ten to a tenth of the difference in decibels. */
  lemma ReceivedShifts(u: Setup, v: Setup, bands: seq<Band>, s: Source, b: nat, power: real, level: real, d: real)
    requires Ready(u, bands) && Ready(v, bands) && ProperMath(u.math) && b < |bands|
    requires u.math == v.math && u.receiver == v.receiver && u.propagation.impedance == v.propagation.impedance
    requires u.propagation.extra == v.propagation.extra
    requires level == DeckAt(u.directivity, Angle(u, s))[b] - PathLoss(u, bands, s, b)
    requires level + d == DeckAt(v.directivity, Angle(u, s))[b] - PathLoss(v, bands, s, b)
    ensures Received(v, bands, s, b, power) == u.math.pow10(d / 10.0) * Received(u, bands, s, b, power)
  {
    hide Spread, SphereArea, DeckAt, Distance, Angle, ProperMath, Gain, Received, PathLoss;
    var area := SphereArea(u.math.pi, Distance(u, s) + u.propagation.extra);
    SamePlace(u, v, s);
    GainOf(u, bands, s, b, level);
    GainOf(v, bands, s, b, level + d);
    GainShifts(u.math, level, d, level + d);
    ReceivedByGain(u, bands, s, b, power, area, Gain(u, bands, s, b));
    ReceivedByGain(v, bands, s, b, power, area, Gain(v, bands, s, b));
    SpreadByGain(power, u.propagation.impedance, area, u.math.pow10(d / 10.0), Gain(u, bands, s, b),
                 Gain(v, bands, s, b));
  }

  lemma ReceivedLouder(u: Setup, v: Setup, bands: seq<Band>, s: Source, b: nat, power: real, d: real)
    requires Ready(u, bands) && Ready(v, bands) && ProperMath(u.math) && b < |bands|
    requires v == u.(directivity := v.directivity)
    requires DeckAt(v.directivity, Angle(u, s))[b] == DeckAt(u.directivity, Angle(u, s))[b] + d
    ensures Received(v, bands, s, b, power) == u.math.pow10(d / 10.0) * Received(u, bands, s, b, power)
  {
    hide DeckAt, Distance, Angle, ProperMath, Received;
    SamePlace(u, v, s);
    ReceivedShifts(u, v, bands, s, b, power, DeckAt(u.directivity, Angle(u, s))[b] - PathLoss(u, bands, s, b), d);
  }

  /** Directivity and propagation have no part in where the receiver is. */
  lemma SamePlace(u: Setup, v: Setup, s: Source)
    requires ValidReceiver(u.receiver) && ValidMath(u.math) && u.math == v.math && u.receiver == v.receiver
    ensures Distance(u, s) == Distance(v, s) && Angle(u, s) == Angle(v, s)
  {
    hide SquaredDistance;
  }

  /** Raising every source's directivity by `d` decibels multiplies the band's pressure by ten to the d/10. */
  lemma FreePressureLouder(u: Setup, v: Setup, a: Allocation, shape: Shape, b: nat, d: real)
    requires Ready(u, shape.bands) && Ready(v, shape.bands) && ProperMath(u.math)
    requires b < |shape.bands| == |shape.fractions| && Louder(u, v, shape.bands, a, b, d)
    ensures FreePressure(v, a, shape, b) == u.math.pow10(d / 10.0) * FreePressure(u, a, shape, b)
  {
    hide Sum, Received, DeckAt, ProperMath;
    var k := u.math.pow10(d / 10.0);
    var x, y := FreeTerms(u, a, shape, b), FreeTerms(v, a, shape, b);
    forall s | 0 <= s < |a|
      ensures y[s] == Scale(k, x)[s]
    {
      ReceivedLouder(u, v, shape.bands, a[s], b, SharedPower(AcousticPower(u.exit), a[s].power, shape.fractions[b]), d);
    }
    assert y == Scale(k, x);
    SumScale(k, x);
  }

  lemma WeightedPressureLouder(u: Setup, v: Setup, a: Allocation, w: BandWeights, b: nat, d: real)
    requires Ready(u, w.bands) && Ready(v, w.bands) && ProperMath(u.math) && ValidWeights(w)
    requires |w.fractions| == |a| && b < |w.bands| && Louder(u, v, w.bands, a, b, d)
    ensures WeightedPressure(v, a, w, b) == u.math.pow10(d / 10.0) * WeightedPressure(u, a, w, b)
  {
    hide Sum, Received, DeckAt, ProperMath;
    var k := u.math.pow10(d / 10.0);
    var x, y := WeightedTerms(u, a, w, b), WeightedTerms(v, a, w, b);
    forall s | 0 <= s < |a|
      ensures y[s] == Scale(k, x)[s]
    {
      ReceivedLouder(u, v, w.bands, a[s], b, OwnPower(AcousticPower(u.exit), w.fractions[s][b]), d);
    }
    assert y == Scale(k, x);
    SumScale(k, x);
  }

  // ---------------------------------------------------------------- levels

  lemma LogOfProduct(m: Math, k: real, x: real, p: real)
    requires ProperMath(m) && x > 0.0 && p == m.pow10(k) * x
    ensures m.log10(p) == k + m.log10(x)
  {
    hide ProperMath;
    var sum := k + m.log10(x);
    Logs(m, x);
    PowerOfSum(m, k, m.log10(x), sum);
    Logs(m, sum);
    assert p == m.pow10(sum);
  }

  /** Zero decibels are twenty micropascals. */
  lemma LevelOfReference(m: Math)
    requires ProperMath(m)
    ensures Level(m, 0.00002 * 0.00002) == 0.0
  {
    hide ProperMath;
    var ref := REFERENCE_PRESSURE * REFERENCE_PRESSURE;
    assert ref / ref == 1.0;
    Logs(m, 0.0);
  }

  /** A pressure ten to the k/10 times as large is `k` decibels louder. */
  lemma LevelMeaning(m: Math, pressure: real, k: real, louder: real)
    requires ProperMath(m) && pressure > 0.0 && louder == m.pow10(k / 10.0) * pressure
    ensures Level(m, louder) == Level(m, pressure) + k
  {
    hide ProperMath;
    var ref := REFERENCE_PRESSURE * REFERENCE_PRESSURE;
    RatioScales(m.pow10(k / 10.0), pressure, ref, louder);
    PositiveQuotient(pressure, ref);
    LogOfProduct(m, k / 10.0, pressure / ref, louder / ref);
  }

  lemma RatioScales(k: real, p: real, d: real, kp: real)
    requires d > 0.0 && kp == k * p
    ensures kp / d == k * (p / d)
  {
    var q := p / d;
    assert q * d == p;
    assert (k * q) * d == k * (q * d);
    QuotientIs(kp, d, k * q);
  }

  /** Raising the directivity by `d` raises the level by exactly `d`, for any number of sources. */
  lemma FreeLevelLouder(u: Setup, v: Setup, a: Allocation, shape: Shape, b: nat, d: real)
    requires Ready(u, shape.bands) && Ready(v, shape.bands) && ProperMath(u.math)
    requires b < |shape.bands| == |shape.fractions| && Louder(u, v, shape.bands, a, b, d)
    requires FreePressure(u, a, shape, b) > 0.0
    ensures Level(u.math, FreePressure(v, a, shape, b)) == Level(u.math, FreePressure(u, a, shape, b)) + d
  {
    hide FreePressure, Level, Ready, ProperMath;
    FreePressureLouder(u, v, a, shape, b, d);
    LevelMeaning(u.math, FreePressure(u, a, shape, b), d, FreePressure(v, a, shape, b));
  }

  lemma WeightedLevelLouder(u: Setup, v: Setup, a: Allocation, w: BandWeights, b: nat, d: real)
    requires Ready(u, w.bands) && Ready(v, w.bands) && ProperMath(u.math) && ValidWeights(w)
    requires |w.fractions| == |a| && b < |w.bands| && Louder(u, v, w.bands, a, b, d)
    requires WeightedPressure(u, a, w, b) > 0.0
    ensures Level(u.math, WeightedPressure(v, a, w, b)) == Level(u.math, WeightedPressure(u, a, w, b)) + d
  {
    hide WeightedPressure, Level, Ready, ValidWeights, ProperMath;
    WeightedPressureLouder(u, v, a, w, b, d);
    LevelMeaning(u.math, WeightedPressure(u, a, w, b), d, WeightedPressure(v, a, w, b));
  }

  // ---------------------------------------------------------------- absorption

  /** The air absorbs `k` decibels per metre more in band `b`, all else equal. */
  ghost predicate Duller(u: Setup, v: Setup, b: nat, k: real) {
    && b < |u.propagation.dbPerMetre| == |v.propagation.dbPerMetre|
    && v == u.(propagation := u.propagation.(dbPerMetre := v.propagation.dbPerMetre))
    && v.propagation.dbPerMetre[b] == u.propagation.dbPerMetre[b] + k
  }

  lemma ReceivedDuller(u: Setup, v: Setup, bands: seq<Band>, s: Source, b: nat, power: real, k: real, lost: real)
    requires Ready(u, bands) && Ready(v, bands) && ProperMath(u.math) && b < |bands| && Duller(u, v, b, k)
    requires lost == k * (Distance(u, s) + u.propagation.extra)
    ensures Received(v, bands, s, b, power) == u.math.pow10(-lost / 10.0) * Received(u, bands, s, b, power)
  {
    hide DeckAt, Distance, Angle, ProperMath, Received;
    var r, x := Distance(u, s) + u.propagation.extra, u.propagation.dbPerMetre[b];
    SamePlace(u, v, s);
    LossGrows(x, k, r);
    ReceivedShifts(u, v, bands, s, b, power, DeckAt(u.directivity, Angle(u, s))[b] - PathLoss(u, bands, s, b), -lost);
  }

  lemma LossGrows(x: real, k: real, r: real)
    ensures (x + k) * r == x * r + k * r
  {
  }

  /** For a single source, absorbing `k` decibels per metre more lowers the level by `k` times the path length. */
  lemma FreeLevelDuller(u: Setup, v: Setup, s: Source, shape: Shape, b: nat, k: real)
    requires Ready(u, shape.bands) && Ready(v, shape.bands) && ProperMath(u.math)
    requires b < |shape.bands| == |shape.fractions| && Duller(u, v, b, k) && FreePressure(u, [s], shape, b) > 0.0
    ensures Level(u.math, FreePressure(v, [s], shape, b))
            == Level(u.math, FreePressure(u, [s], shape, b)) - k * (Distance(u, s) + u.propagation.extra)
  {
    hide Received, Level, FreePressure, Distance, ProperMath;
    SingleTerm(u, s, shape, b);
    SingleTerm(v, s, shape, b);
    var lost := k * (Distance(u, s) + u.propagation.extra);
    ReceivedDuller(u, v, shape.bands, s, b, SharedPower(AcousticPower(u.exit), s.power, shape.fractions[b]), k, lost);
    LevelMeaning(u.math, FreePressure(u, [s], shape, b), -lost, FreePressure(v, [s], shape, b));
  }

  lemma WeightedLevelDuller(u: Setup, v: Setup, s: Source, w: BandWeights, b: nat, k: real)
    requires Ready(u, w.bands) && Ready(v, w.bands) && ProperMath(u.math) && ValidWeights(w) && |w.fractions| == 1
    requires b < |w.bands| && Duller(u, v, b, k) && WeightedPressure(u, [s], w, b) > 0.0
    ensures Level(u.math, WeightedPressure(v, [s], w, b))
            == Level(u.math, WeightedPressure(u, [s], w, b)) - k * (Distance(u, s) + u.propagation.extra)
  {
    hide Received, Level, WeightedPressure, Distance, ProperMath;
    SingleWeighted(u, s, w, b);
    SingleWeighted(v, s, w, b);
    var lost := k * (Distance(u, s) + u.propagation.extra);
    ReceivedDuller(u, v, w.bands, s, b, OwnPower(AcousticPower(u.exit), w.fractions[0][b]), k, lost);
    LevelMeaning(u.math, WeightedPressure(u, [s], w, b), -lost, WeightedPressure(v, [s], w, b));
  }

  lemma {:induction false} SumOrder(x: Vec, y: Vec)
    requires |x| == |y| && forall i :: 0 <= i < |x| ==> x[i] <= y[i]
    ensures Sum(x) <= Sum(y)
  {
    if |x| > 0 {
      SumOrder(x[..|x| - 1], y[..|y| - 1]);
    }
  }

  lemma LessReceived(u: Setup, v: Setup, bands: seq<Band>, s: Source, b: nat, power: real, k: real)
    requires Ready(u, bands) && Ready(v, bands) && ProperMath(u.math) && b < |bands| && Duller(u, v, b, k)
    requires k >= 0.0 && power >= 0.0
    ensures Received(v, bands, s, b, power) <= Received(u, bands, s, b, power)
  {
    hide Received, DeckAt, Ready, Distance, ProperMath;
    ReadyParts(u, bands);
    var r := Distance(u, s) + u.propagation.extra;
    var lost, x := k * r, Received(u, bands, s, b, power);
    ReceivedDuller(u, v, bands, s, b, power, k, lost);
    ReceivedSign(u, bands, s, b, power);
    NonNegativeProduct(k, r);
    Logs(u.math, -lost / 10.0);
    Shrinks(u.math.pow10(-lost / 10.0), x);
  }

  lemma Shrinks(factor: real, x: real)
    requires factor <= 1.0 && x >= 0.0
    ensures factor * x <= x
  {
    NonNegativeProduct(1.0 - factor, x);
  }

  /** More absorption never raises a band's pressure, however many sources there are. */
  lemma FreePressureDuller(u: Setup, v: Setup, a: Allocation, shape: Shape, b: nat, k: real)
    requires Ready(u, shape.bands) && Ready(v, shape.bands) && ProperMath(u.math)
    requires ValidAllocation(a) && ValidShape(shape) && b < |shape.bands| && Duller(u, v, b, k) && k >= 0.0
    ensures FreePressure(v, a, shape, b) <= FreePressure(u, a, shape, b)
  {
    hide Sum, Received, Ready, AcousticPower, SharedPower;
    forall s | 0 <= s < |a|
      ensures FreeTerms(v, a, shape, b)[s] <= FreeTerms(u, a, shape, b)[s]
    {
      PowerOfExit(u, shape.bands);
      ThreeFactors(AcousticPower(u.exit), a[s].power, shape.fractions[b]);
      SharedSign(AcousticPower(u.exit), a[s].power, shape.fractions[b]);
      LessReceived(u, v, shape.bands, a[s], b,
                   SharedPower(AcousticPower(u.exit), a[s].power, shape.fractions[b]), k);
    }
    SumOrder(FreeTerms(v, a, shape, b), FreeTerms(u, a, shape, b));
  }

  lemma PowerOfExit(u: Setup, bands: seq<Band>)
    requires Ready(u, bands)
    ensures AcousticPower(u.exit) > 0.0
  {
    PowerPositive(u.exit);
  }

  lemma SharedSign(x: real, y: real, z: real)
    requires x > 0.0 && y >= 0.0 && z >= 0.0
    ensures SharedPower(x, y, z) >= 0.0
  {
    ThreeFactors(x, y, z);
  }

  lemma WeightedPressureDuller(u: Setup, v: Setup, a: Allocation, w: BandWeights, b: nat, k: real)
    requires Ready(u, w.bands) && Ready(v, w.bands) && ProperMath(u.math) && ValidWeights(w)
    requires |w.fractions| == |a| && b < |w.bands| && Duller(u, v, b, k) && k >= 0.0
    ensures WeightedPressure(v, a, w, b) <= WeightedPressure(u, a, w, b)
  {
    hide Sum, Received, Ready, AcousticPower;
    forall s | 0 <= s < |a|
      ensures WeightedTerms(v, a, w, b)[s] <= WeightedTerms(u, a, w, b)[s]
    {
      PowerOfExit(u, w.bands);
      NonNegativeProduct(AcousticPower(u.exit), w.fractions[s][b]);
      LessReceived(u, v, w.bands, a[s], b, OwnPower(AcousticPower(u.exit), w.fractions[s][b]), k);
    }
    SumOrder(WeightedTerms(v, a, w, b), WeightedTerms(u, a, w, b));
  }
}
