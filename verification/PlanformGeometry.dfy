/**
 * Projected planform of a body of revolution: composite Simpson on the nose, closed forms behind it.
 * Simpson's rule is proved exact on every cubic; a cone's width is linear and its first moment
 * quadratic, so both come out exactly. The other parts are compared with the antiderivatives of
 * their widths.
 */
module PlanformGeometry {
  import opened Wrappers
  import opened Reals

  const QUADRATURE_STEPS: nat := 64

  /** A cone, or any other nose by its radius as a function of the axial position. */
  datatype Nose = Conical | Shaped(radius: real -> real)

  datatype Afterbody = Afterbody(exitDiameter: real, length: real)

  datatype Body = Body(diameter: real, length: real, nose: Nose, noseLength: real, afterbody: Option<Afterbody>)

  function Clamp(x: real, low: real, high: real): real {
    if x < low then low else if x > high then high else x
  }

  function RadiusAt(nose: Nose, length: real, maxRadius: real, x: real): real
    requires length > 0.0
  {
    var inside := Clamp(x, 0.0, length);
    match nose
    case Conical => maxRadius * inside / length
    case Shaped(radius) => radius(inside)
  }

  function Width(nose: Nose, length: real, maxRadius: real, x: real): real
    requires length > 0.0
  {
    2.0 * RadiusAt(nose, length, maxRadius, x)
  }

  // ---------------------------------------------------------------- composite Simpson

  /** Quadrature weight of point `i` of `n`: 1 at both ends, then 4, 2, 4, ... */
  function Weight(i: nat, n: nat): real {
    if i == 0 || i == n then 1.0 else if i % 2 == 0 then 2.0 else 4.0
  }

  /** The weighted sum of the first `i` samples. */
  function Weighted(f: real -> real, step: real, i: nat, n: nat): real {
    if i == 0 then 0.0 else Weighted(f, step, i - 1, n) + Weight(i - 1, n) * f(Spaced(step, i - 1))
  }

  /** Simpson's rule on one pair of steps, times three over the step. */
  function PairRule(f: real -> real, step: real, m: nat): real {
    f(Spaced(step, 2 * m)) + 4.0 * f(Spaced(step, 2 * m + 1)) + f(Spaced(step, 2 * m + 2))
  }

  function Pairs(f: real -> real, step: real, m: nat): real {
    if m == 0 then 0.0 else Pairs(f, step, m - 1) + PairRule(f, step, m - 1)
  }

  /** The alternating weights are Simpson's rule applied pair by pair. */
  lemma {:induction false} WeightedIsPairs(f: real -> real, step: real, m: nat, n: nat)
    requires n % 2 == 0 && 2 * m <= n && n > 0
    ensures Weighted(f, step, 2 * m + 1, n) == Pairs(f, step, m) + if 2 * m == n then 0.0 else f(Spaced(step, 2 * m))
  {
    hide Spaced;
    if m == 0 {
      assert Weighted(f, step, 1, n) == Weighted(f, step, 0, n) + Weight(0, n) * f(Spaced(step, 0));
    } else {
      var j := 2 * m - 1;
      WeightedIsPairs(f, step, m - 1, n);
      assert Weighted(f, step, j + 2, n)
          == Weighted(f, step, j, n) + Weight(j, n) * f(Spaced(step, j)) + Weight(j + 1, n) * f(Spaced(step, j + 1));
      assert j % 2 == 1;
    }
  }

  // ---------------------------------------------------------------- exactness on cubics

  /** a + b x + c x^2 + d x^3 */
  datatype Cubic = Cubic(a: real, b: real, c: real, d: real)

  function Eval(p: Cubic, x: real): real {
    p.a + p.b * x + p.c * (x * x) + p.d * (x * x * x)
  }

  /** The antiderivative that vanishes at 0. */
  function Primitive(p: Cubic, x: real): real {
    p.a * x + p.b * (x * x) / 2.0 + p.c * (x * x * x) / 3.0 + p.d * (x * x * x * x) / 4.0
  }

  lemma SquareRule(x: real, h: real)
    ensures h * (x + 4.0 * (x + h) + (x + h + h)) == 3.0 * (((x + h + h) * (x + h + h) - x * x) / 2.0)
  {
  }

  lemma CubeRule(x: real, h: real)
    ensures var y, z := x + h, x + h + h;
            h * (x * x + 4.0 * (y * y) + z * z) == 3.0 * ((z * z * z - x * x * x) / 3.0)
  {
  }

  lemma QuarticRule(x: real, h: real)
    ensures var y, z := x + h, x + h + h;
            h * (x * x * x + 4.0 * (y * y * y) + z * z * z) == 3.0 * ((z * z * z * z - x * x * x * x) / 4.0)
  {
  }

  /** The rule on one monomial with its coefficient. */
  function Rule(k: real, u: real, v: real, w: real): real {
    k * u + 4.0 * (k * v) + k * w
  }

  /** One monomial's share: its coefficient passes through the rule. */
  lemma Share(h: real, k: real, u: real, v: real, w: real, r: real)
    requires h * (u + 4.0 * v + w) == 3.0 * r
    ensures h * Rule(k, u, v, w) == 3.0 * (k * r)
  {
    var q := u + 4.0 * v + w;
    assert Rule(k, u, v, w) == k * q;
    assert h * (k * q) == k * (h * q);
  }

  lemma EvalRules(p: Cubic, x: real, y: real, z: real)
    ensures Eval(p, x) + 4.0 * Eval(p, y) + Eval(p, z)
            == Rule(p.a, 1.0, 1.0, 1.0) + Rule(p.b, x, y, z) + Rule(p.c, x * x, y * y, z * z)
             + Rule(p.d, x * x * x, y * y * y, z * z * z)
  {
  }

  lemma Assemble(h: real, a: real, b: real, c: real, d: real, total: real, change: real,
                 ra: real, rb: real, rc: real, rd: real)
    requires h * a == 3.0 * ra && h * b == 3.0 * rb && h * c == 3.0 * rc && h * d == 3.0 * rd
    requires total == a + b + c + d && change == ra + rb + rc + rd
    ensures h * total / 3.0 == change
  {
    assert h * total == h * a + h * b + h * c + h * d;
  }

  lemma PrimitiveChange(p: Cubic, x: real, z: real)
    ensures Primitive(p, z) - Primitive(p, x)
            == p.a * (z - x) + p.b * ((z * z - x * x) / 2.0) + p.c * ((z * z * z - x * x * x) / 3.0)
             + p.d * ((z * z * z * z - x * x * x * x) / 4.0)
  {
    Spread(p.a, z, x);
    Spread(p.b, z * z, x * x);
    Spread(p.c, z * z * z, x * x * x);
    Spread(p.d, z * z * z * z, x * x * x * x);
  }

  lemma Spread(k: real, u: real, v: real)
    ensures k * (u - v) == k * u - k * v
    ensures k * ((u - v) / 2.0) == k * u / 2.0 - k * v / 2.0
    ensures k * ((u - v) / 3.0) == k * u / 3.0 - k * v / 3.0
    ensures k * ((u - v) / 4.0) == k * u / 4.0 - k * v / 4.0
  {
  }

  /** Simpson's rule on a cubic, given that it is right on each power. */
  lemma SimpsonByPowers(p: Cubic, x: real, y: real, z: real, h: real)
    requires h * (1.0 + 4.0 * 1.0 + 1.0) == 3.0 * (z - x)
    requires h * (x + 4.0 * y + z) == 3.0 * ((z * z - x * x) / 2.0)
    requires h * (x * x + 4.0 * (y * y) + z * z) == 3.0 * ((z * z * z - x * x * x) / 3.0)
    requires h * (x * x * x + 4.0 * (y * y * y) + z * z * z) == 3.0 * ((z * z * z * z - x * x * x * x) / 4.0)
    ensures h * (Eval(p, x) + 4.0 * Eval(p, y) + Eval(p, z)) / 3.0 == Primitive(p, z) - Primitive(p, x)
  {
    hide Eval, Primitive, Rule;
    Share(h, p.a, 1.0, 1.0, 1.0, z - x);
    Share(h, p.b, x, y, z, (z * z - x * x) / 2.0);
    Share(h, p.c, x * x, y * y, z * z, (z * z * z - x * x * x) / 3.0);
    Share(h, p.d, x * x * x, y * y * y, z * z * z, (z * z * z * z - x * x * x * x) / 4.0);
    PrimitiveChange(p, x, z);
    EvalRules(p, x, y, z);
    Assemble(h, Rule(p.a, 1.0, 1.0, 1.0), Rule(p.b, x, y, z), Rule(p.c, x * x, y * y, z * z),
             Rule(p.d, x * x * x, y * y * y, z * z * z),
             Eval(p, x) + 4.0 * Eval(p, y) + Eval(p, z), Primitive(p, z) - Primitive(p, x),
             p.a * (z - x), p.b * ((z * z - x * x) / 2.0), p.c * ((z * z * z - x * x * x) / 3.0),
             p.d * ((z * z * z * z - x * x * x * x) / 4.0));
  }

  /** Simpson's rule is exact on every cubic, over any interval. */
  lemma SimpsonOnce(p: Cubic, x: real, h: real)
    ensures h * (Eval(p, x) + 4.0 * Eval(p, x + h) + Eval(p, x + h + h)) / 3.0
            == Primitive(p, x + h + h) - Primitive(p, x)
  {
    hide Eval, Primitive;
    SquareRule(x, h);
    CubeRule(x, h);
    QuarticRule(x, h);
    SimpsonByPowers(p, x, x + h, x + h + h, h);
  }

  function Third(step: real, sum: real): real {
    step * sum / 3.0
  }

  lemma ThirdAdds(step: real, a: real, b: real)
    ensures Third(step, a + b) == Third(step, a) + Third(step, b)
  {
  }

  /** The composite rule is exact on every function that is a cubic at the sample points. */
  lemma {:induction false} PairsExact(f: real -> real, p: Cubic, step: real, m: nat)
    requires forall i: nat :: i <= 2 * m ==> f(Spaced(step, i)) == Eval(p, Spaced(step, i))
    ensures Third(step, Pairs(f, step, m)) == Primitive(p, Spaced(step, 2 * m)) - Primitive(p, 0.0)
  {
    hide Spaced, Eval, Primitive, Third;
    if m == 0 {
      Origin(step);
    } else {
      var k := 2 * (m - 1);
      PairsExact(f, p, step, m - 1);
      SpacedNext(step, k);
      SpacedNext(step, k + 1);
      ThirdAdds(step, Pairs(f, step, m - 1), PairRule(f, step, m - 1));
      PairExact(f, p, step, k);
    }
  }

  lemma Origin(step: real)
    ensures Spaced(step, 0) == 0.0 && Third(step, 0.0) == 0.0
  {
  }

  lemma PairExact(f: real -> real, p: Cubic, step: real, k: nat)
    requires f(Spaced(step, k)) == Eval(p, Spaced(step, k)) && f(Spaced(step, k + 1)) == Eval(p, Spaced(step, k + 1))
    requires f(Spaced(step, k + 2)) == Eval(p, Spaced(step, k + 2))
    ensures Third(step, f(Spaced(step, k)) + 4.0 * f(Spaced(step, k + 1)) + f(Spaced(step, k + 2)))
            == Primitive(p, Spaced(step, k + 2)) - Primitive(p, Spaced(step, k))
  {
    hide Spaced, Eval, Primitive;
    SpacedNext(step, k);
    SpacedNext(step, k + 1);
    SimpsonOnce(p, Spaced(step, k), step);
  }

  // ---------------------------------------------------------------- the nose

  function WidthOf(nose: Nose, length: real, maxRadius: real): real -> real
    requires length > 0.0
  {
    x => Width(nose, length, maxRadius, x)
  }

  function MomentOf(nose: Nose, length: real, maxRadius: real): real -> real
    requires length > 0.0
  {
    x => Width(nose, length, maxRadius, x) * x
  }

  lemma TimesAgain(a: real, b: real, c: real)
    ensures (a * b) * c == a * (b * c)
  {
  }

  lemma NoSamples(f: real -> real, step: real, n: nat)
    ensures Weighted(f, step, 0, n) == 0.0
  {
  }

  lemma Sampled(nose: Nose, length: real, maxRadius: real, step: real, i: nat, n: nat)
    requires length > 0.0
    ensures var x := Spaced(step, i);
            var width := Width(nose, length, maxRadius, x);
            && Weighted(WidthOf(nose, length, maxRadius), step, i + 1, n)
               == Weighted(WidthOf(nose, length, maxRadius), step, i, n) + Weight(i, n) * width
            && Weighted(MomentOf(nose, length, maxRadius), step, i + 1, n)
               == Weighted(MomentOf(nose, length, maxRadius), step, i, n) + Weight(i, n) * (width * x)
  {
    hide Spaced, Width;
  }

  /** The quadrature loop computes Simpson's rule for the width and for its first moment, for every even step count. */
  method NosePlanform(nose: Nose, length: real, maxRadius: real, steps: nat) returns (area: real, moment: real)
    requires length > 0.0 && steps > 0 && steps % 2 == 0
    ensures var step := length / steps as real;
            && area == Third(step, Pairs(WidthOf(nose, length, maxRadius), step, steps / 2))
            && moment == Third(step, Pairs(MomentOf(nose, length, maxRadius), step, steps / 2))
  {
    hide Spaced, Width, Third, Pairs, Weighted, Weight, WidthOf, MomentOf;
    var step := length / steps as real;
    ghost var w, v := WidthOf(nose, length, maxRadius), MomentOf(nose, length, maxRadius);
    var areaSum, momentSum := 0.0, 0.0;
    NoSamples(w, step, steps);
    NoSamples(v, step, steps);
    for i := 0 to steps + 1
      invariant areaSum == Weighted(w, step, i, steps) && momentSum == Weighted(v, step, i, steps)
    {
      var x := Spaced(step, i);
      var weight := Weight(i, steps);
      var width := Width(nose, length, maxRadius, x);
      TimesAgain(weight, width, x);
      Sampled(nose, length, maxRadius, step, i, steps);
      areaSum := areaSum + weight * width;
      momentSum := momentSum + weight * width * x;
    }
    WeightedIsPairs(w, step, steps / 2, steps);
    WeightedIsPairs(v, step, steps / 2, steps);
    area, moment := Third(step, areaSum), Third(step, momentSum);
  }

  lemma PointsInside(length: real, steps: nat, i: nat)
    requires length > 0.0 && i <= steps && steps > 0
    ensures 0.0 <= Spaced(length / steps as real, i) <= length
    ensures i == steps ==> Spaced(length / steps as real, i) == length
  {
    var n := steps as real;
    var step := length / n;
    assert step * n == length && step > 0.0;
    NonNegativeProduct(step, i as real);
    NonNegativeProduct(step, n - i as real);
    assert step * (n - i as real) == step * n - step * i as real;
  }

  /** Width linear in x: the cone of the given radius and length. */
  lemma ConeWidth(length: real, maxRadius: real, x: real)
    requires length > 0.0 && 0.0 <= x <= length
    ensures Width(Conical, length, maxRadius, x) == Eval(Cubic(0.0, 2.0 * maxRadius / length, 0.0, 0.0), x)
    ensures Width(Conical, length, maxRadius, x) * x == Eval(Cubic(0.0, 0.0, 2.0 * maxRadius / length, 0.0), x)
  {
    var slope := 2.0 * maxRadius / length;
    Slope(maxRadius, x, length);
    assert Width(Conical, length, maxRadius, x) == slope * x;
    TimesAgain(slope, x, x);
  }

  lemma Slope(r: real, x: real, length: real)
    requires length > 0.0
    ensures 2.0 * (r * x / length) == (2.0 * r / length) * x
  {
    var a, b := r * x / length, 2.0 * r / length;
    assert a * length == r * x && b * length == 2.0 * r;
    assert (2.0 * a) * length == (b * x) * length;
    Cancel(2.0 * a, b * x, length);
  }

  /** On a cone the quadrature gives the exact area and first moment, for every even step count. */
  lemma ConeIsExact(length: real, maxRadius: real, steps: nat)
    requires length > 0.0 && steps > 0 && steps % 2 == 0
    ensures var step := length / steps as real;
            && Third(step, Pairs(WidthOf(Conical, length, maxRadius), step, steps / 2)) == maxRadius * length
            && Third(step, Pairs(MomentOf(Conical, length, maxRadius), step, steps / 2))
               == 2.0 * maxRadius * (length * length) / 3.0
  {
    hide Spaced, Eval, Primitive, Third, Pairs, Width;
    var step, slope := length / steps as real, 2.0 * maxRadius / length;
    forall i: nat | i <= steps
      ensures WidthOf(Conical, length, maxRadius)(Spaced(step, i)) == Eval(Cubic(0.0, slope, 0.0, 0.0), Spaced(step, i))
      ensures MomentOf(Conical, length, maxRadius)(Spaced(step, i))
              == Eval(Cubic(0.0, 0.0, slope, 0.0), Spaced(step, i))
    {
      PointsInside(length, steps, i);
      ConeWidth(length, maxRadius, Spaced(step, i));
    }
    PairsExact(WidthOf(Conical, length, maxRadius), Cubic(0.0, slope, 0.0, 0.0), step, steps / 2);
    PairsExact(MomentOf(Conical, length, maxRadius), Cubic(0.0, 0.0, slope, 0.0), step, steps / 2);
    PointsInside(length, steps, steps);
    ConePrimitives(length, maxRadius, slope);
  }

  lemma ConePrimitives(length: real, maxRadius: real, slope: real)
    requires length > 0.0 && slope == 2.0 * maxRadius / length
    ensures Primitive(Cubic(0.0, slope, 0.0, 0.0), length) - Primitive(Cubic(0.0, slope, 0.0, 0.0), 0.0)
            == maxRadius * length
    ensures Primitive(Cubic(0.0, 0.0, slope, 0.0), length) - Primitive(Cubic(0.0, 0.0, slope, 0.0), 0.0)
            == 2.0 * maxRadius * (length * length) / 3.0
  {
    assert slope * length == 2.0 * maxRadius;
    TimesAgain(slope, length, length);
    TimesAgain(slope, length, length * length);
  }

  // ---------------------------------------------------------------- bounds of the first moment

  lemma ProductOfPair(far: real, s: real, a: real, b: real, c: real)
    ensures Product(far, s + (a + 4.0 * b + c))
            == Product(far, s) + (Product(far, a) + 4.0 * Product(far, b) + Product(far, c))
  {
  }

  /** Samples never negative, and first-moment samples never beyond `far` times them. */
  ghost predicate Bounded(f: real -> real, g: real -> real, step: real, m: nat, far: real) {
    forall i: nat :: i <= 2 * m ==>
      f(Spaced(step, i)) >= 0.0 && 0.0 <= g(Spaced(step, i)) <= Product(far, f(Spaced(step, i)))
  }

  lemma {:induction false} PairsBounded(f: real -> real, g: real -> real, step: real, m: nat, far: real)
    requires Bounded(f, g, step, m, far)
    ensures Pairs(f, step, m) >= 0.0 && 0.0 <= Pairs(g, step, m) <= Product(far, Pairs(f, step, m))
  {
    hide Spaced, Product;
    if m == 0 {
      NothingScaled(far);
    } else {
      var k := 2 * (m - 1);
      PairsBounded(f, g, step, m - 1, far);
      assert f(Spaced(step, k)) >= 0.0 && f(Spaced(step, k + 1)) >= 0.0 && f(Spaced(step, k + 2)) >= 0.0;
      ProductOfPair(far, Pairs(f, step, m - 1), f(Spaced(step, k)), f(Spaced(step, k + 1)), f(Spaced(step, k + 2)));
    }
  }

  lemma NothingScaled(far: real)
    ensures Product(far, 0.0) == 0.0
  {
  }

  /** Radii are nowhere negative on the nose. */
  ghost predicate RadiiNonNegative(nose: Nose, length: real) {
    nose.Shaped? ==> forall x: real :: 0.0 <= x <= length ==> nose.radius(x) >= 0.0
  }

  lemma SampleBounds(nose: Nose, length: real, maxRadius: real, x: real)
    requires length > 0.0 && maxRadius >= 0.0 && RadiiNonNegative(nose, length) && 0.0 <= x <= length
    ensures Width(nose, length, maxRadius, x) >= 0.0
    ensures 0.0 <= Width(nose, length, maxRadius, x) * x <= length * Width(nose, length, maxRadius, x)
  {
    var w := Width(nose, length, maxRadius, x);
    if nose.Conical? {
      NonNegativeProduct(maxRadius, x);
      Quotient(maxRadius * x, length);
    }
    NonNegativeProduct(w, x);
    NonNegativeProduct(w, length - x);
    assert w * (length - x) == length * w - w * x;
  }

  lemma Quotient(a: real, b: real)
    requires a >= 0.0 && b > 0.0
    ensures a / b >= 0.0
  {
  }

  /** The quadrature moment is between zero and the nose length times the quadrature area. */
  lemma NoseMomentBounded(nose: Nose, length: real, maxRadius: real, steps: nat)
    requires length > 0.0 && maxRadius >= 0.0 && RadiiNonNegative(nose, length) && steps > 0 && steps % 2 == 0
    ensures var step := length / steps as real;
            var area := Third(step, Pairs(WidthOf(nose, length, maxRadius), step, steps / 2));
            var moment := Third(step, Pairs(MomentOf(nose, length, maxRadius), step, steps / 2));
            area >= 0.0 && 0.0 <= moment <= length * area
  {
    hide Spaced, Width, Pairs;
    var step, f, g := length / steps as real, WidthOf(nose, length, maxRadius), MomentOf(nose, length, maxRadius);
    forall i: nat | i <= steps
      ensures f(Spaced(step, i)) >= 0.0 && 0.0 <= g(Spaced(step, i)) <= Product(length, f(Spaced(step, i)))
    {
      PointsInside(length, steps, i);
      SampleBounds(nose, length, maxRadius, Spaced(step, i));
    }
    PairsBounded(f, g, step, steps / 2, length);
    Quotient(length, steps as real);
    ThirdBounded(step, Pairs(f, step, steps / 2), Pairs(g, step, steps / 2), length);
  }

  lemma ThirdBounded(step: real, area: real, moment: real, far: real)
    requires step >= 0.0 && area >= 0.0 && 0.0 <= moment <= far * area
    ensures Third(step, area) >= 0.0 && 0.0 <= Third(step, moment) <= far * Third(step, area)
  {
    NonNegativeProduct(step, area);
    NonNegativeProduct(step, moment);
    NonNegativeProduct(step, far * area - moment);
    assert step * (far * area - moment) == far * (step * area) - step * moment;
    assert far * (step * area / 3.0) == far * (step * area) / 3.0;
  }

  // ---------------------------------------------------------------- the whole body

  predicate ValidBody(b: Body) {
    && b.diameter > 0.0 && 0.0 < b.noseLength < b.length
    && (b.afterbody.Some? ==> b.afterbody.value.exitDiameter > 0.0 && b.afterbody.value.length > 0.0)
  }

  function AfterLength(b: Body): real {
    if b.afterbody.Some? then b.afterbody.value.length else 0.0
  }

  function CylinderLength(b: Body): real {
    var rest := b.length - b.noseLength - AfterLength(b);
    if rest < 0.0 then 0.0 else rest
  }

  /** Area and first moment about the nose tip. */
  datatype Planform = Planform(area: real, moment: real)

  function CylinderPlanform(b: Body): Planform {
    var area := b.diameter * CylinderLength(b);
    Planform(area, area * (b.noseLength + 0.5 * CylinderLength(b)))
  }

  function AfterbodyPlanform(b: Body): Planform {
    match b.afterbody
    case None => Planform(0.0, 0.0)
    case Some(a) =>
      var start := b.length - a.length;
      var area := 0.5 * (b.diameter + a.exitDiameter) * a.length;
      var local := a.length * a.length * (0.5 * b.diameter + (a.exitDiameter - b.diameter) / 3.0);
      Planform(area, area * start + local)
  }

  ghost function NosePart(b: Body): Planform
    requires ValidBody(b)
  {
    var step := b.noseLength / QUADRATURE_STEPS as real;
    Planform(Third(step, Pairs(WidthOf(b.nose, b.noseLength, 0.5 * b.diameter), step, QUADRATURE_STEPS / 2)),
             Third(step, Pairs(MomentOf(b.nose, b.noseLength, 0.5 * b.diameter), step, QUADRATURE_STEPS / 2)))
  }

  ghost function Whole(b: Body): Planform
    requires ValidBody(b)
  {
    var n, c, a := NosePart(b), CylinderPlanform(b), AfterbodyPlanform(b);
    Planform(n.area + c.area + a.area, n.moment + c.moment + a.moment)
  }

  datatype Centroid = Centroid(area: real, position: real)

  /** The projected area and its centroid; `None` is the refusal of an area that is not positive. */
  method BodyPlanform(b: Body) returns (r: Option<Centroid>)
    requires ValidBody(b)
    ensures r.Some? <==> Whole(b).area > 0.0
    ensures r.Some? ==> r.value.area == Whole(b).area
                        && r.value.position == Clamp(Whole(b).moment / Whole(b).area, 0.0, b.length)
  {
    hide Third, Pairs;
    var noseArea, noseMoment := NosePlanform(b.nose, b.noseLength, 0.5 * b.diameter, QUADRATURE_STEPS);
    var cylinder, after := CylinderPlanform(b), AfterbodyPlanform(b);
    var area := noseArea + cylinder.area + after.area;
    var moment := noseMoment + cylinder.moment + after.moment;
    if area <= 0.0 {
      return None;
    }
    return Some(Centroid(area, Clamp(moment / area, 0.0, b.length)));
  }

  // ---------------------------------------------------------------- against exact integrals

  /** Exact area and first moment under the width p + q x between two stations. */
  function Under(p: real, q: real, from: real, to: real): Planform {
    Planform(Primitive(Cubic(p, q, 0.0, 0.0), to) - Primitive(Cubic(p, q, 0.0, 0.0), from),
             Primitive(Cubic(0.0, p, q, 0.0), to) - Primitive(Cubic(0.0, p, q, 0.0), from))
  }

  lemma CylinderIsIntegral(b: Body)
    ensures CylinderPlanform(b) == Under(b.diameter, 0.0, b.noseLength, b.noseLength + CylinderLength(b))
  {
    var d, n, c := b.diameter, b.noseLength, CylinderLength(b);
    assert d * c * (n + 0.5 * c) == d * ((n + c) * (n + c)) / 2.0 - d * (n * n) / 2.0;
  }

  /** The tapered width: the body diameter where the afterbody starts, the exit diameter at the end. */
  function Taper(b: Body): real
    requires ValidBody(b) && b.afterbody.Some?
  {
    (b.afterbody.value.exitDiameter - b.diameter) / b.afterbody.value.length
  }

  lemma FrustumIsIntegral(b: Body)
    requires ValidBody(b) && b.afterbody.Some?
    ensures var start, q := b.length - AfterLength(b), Taper(b);
            AfterbodyPlanform(b) == Under(b.diameter - q * start, q, start, b.length)
    ensures Taper(b) * AfterLength(b) == b.afterbody.value.exitDiameter - b.diameter
  {
    var a, q, d := AfterLength(b), Taper(b), b.diameter;
    assert q * a == b.afterbody.value.exitDiameter - d;
    FrustumArea(d, q, b.length - a, a, q * a);
    FrustumMoment(d, q, b.length - a, a, q * a);
  }

  lemma FrustumArea(d: real, q: real, start: real, a: real, rise: real)
    requires rise == q * a
    ensures 0.5 * (d + (d + rise)) * a
            == Primitive(Cubic(d - q * start, q, 0.0, 0.0), start + a)
               - Primitive(Cubic(d - q * start, q, 0.0, 0.0), start)
  {
  }

  lemma FrustumMoment(d: real, q: real, start: real, a: real, rise: real)
    requires rise == q * a
    ensures 0.5 * (d + (d + rise)) * a * start + a * a * (0.5 * d + rise / 3.0)
            == Primitive(Cubic(0.0, d - q * start, q, 0.0), start + a)
               - Primitive(Cubic(0.0, d - q * start, q, 0.0), start)
  {
  }

  function ExactAfterbody(b: Body): Planform
    requires ValidBody(b)
  {
    var start := b.length - AfterLength(b);
    if b.afterbody.None? then Planform(0.0, 0.0) else Under(b.diameter - Taper(b) * start, Taper(b), start, b.length)
  }

  /** The exact planform of a cone, a cylinder and a frustum in a row. */
  function ExactPlanform(b: Body): Planform
    requires ValidBody(b)
  {
    var nose := Under(0.0, b.diameter / b.noseLength, 0.0, b.noseLength);
    var cylinder := Under(b.diameter, 0.0, b.noseLength, b.noseLength + CylinderLength(b));
    Planform(nose.area + cylinder.area + ExactAfterbody(b).area,
             nose.moment + cylinder.moment + ExactAfterbody(b).moment)
  }

  lemma AfterbodyIsIntegral(b: Body)
    requires ValidBody(b)
    ensures AfterbodyPlanform(b) == ExactAfterbody(b)
  {
    if b.afterbody.Some? {
      FrustumIsIntegral(b);
    }
  }

  /** For a conical nose the computed area and moment are the exact integrals of the body's width. */
  lemma ConicalBodyIsExact(b: Body)
    requires ValidBody(b) && b.nose == Conical
    ensures Whole(b) == ExactPlanform(b)
  {
    hide Third, Pairs, Primitive, CylinderPlanform, AfterbodyPlanform, ExactAfterbody;
    var n, d := b.noseLength, b.diameter;
    ConeIsExact(n, 0.5 * d, QUADRATURE_STEPS);
    ConePrimitives(n, 0.5 * d, d / n);
    CylinderIsIntegral(b);
    AfterbodyIsIntegral(b);
  }

  /** Where nose and afterbody fit the body, the clamp of the centroid never acts, whatever the nose shape. */
  lemma ClampIsIdle(b: Body)
    requires ValidBody(b) && RadiiNonNegative(b.nose, b.noseLength) && b.noseLength + AfterLength(b) <= b.length
    requires Whole(b).area > 0.0
    ensures 0.0 <= Whole(b).moment / Whole(b).area <= b.length
    ensures Clamp(Whole(b).moment / Whole(b).area, 0.0, b.length) == Whole(b).moment / Whole(b).area
  {
    hide Third, Pairs, CylinderPlanform, AfterbodyPlanform;
    NoseMomentBounded(b.nose, b.noseLength, 0.5 * b.diameter, QUADRATURE_STEPS);
    CylinderBounded(b);
    AfterbodyBounded(b);
    MomentBelow(b);
    Ratio(Whole(b).moment, Whole(b).area, b.length);
  }

  // ---------------------------------------------------------------- the noses of the program

  datatype NoseShape = Cone | Ogive | VonKarman | Hemisphere

  datatype Curves = Curves(sqrt: real -> real, acos: real -> real, sin: real -> real, pi: real)

  ghost predicate ValidCurves(c: Curves) {
    c.pi != 0.0 && forall y: real :: y >= 0.0 ==> c.sqrt(y) >= 0.0 && c.sqrt(y) * c.sqrt(y) == y
  }

  function GeneratingRadius(length: real, maxRadius: real): real
    requires maxRadius != 0.0
  {
    (length * length + maxRadius * maxRadius) / (2.0 * maxRadius)
  }

  function OgiveRadicand(length: real, generating: real, x: real): real {
    Max(generating * generating - (length - x) * (length - x), 0.0)
  }

  function OgiveRadius(sqrt: real -> real, length: real, maxRadius: real, x: real): real
    requires maxRadius != 0.0
  {
    var generating := GeneratingRadius(length, maxRadius);
    sqrt(OgiveRadicand(length, generating, x)) + maxRadius - generating
  }

  function VonKarmanRadius(c: Curves, length: real, maxRadius: real, x: real): real
    requires c.pi != 0.0 && length != 0.0
  {
    var theta := c.acos(Clamp(1.0 - 2.0 * x / length, -1.0, 1.0));
    var areaFraction := (theta - 0.5 * c.sin(2.0 * theta)) / c.pi;
    maxRadius * c.sqrt(Max(areaFraction, 0.0))
  }

  function HemisphereRadius(sqrt: real -> real, maxRadius: real, x: real): real {
    sqrt(Max(maxRadius * maxRadius - (x - maxRadius) * (x - maxRadius), 0.0))
  }

  function NoseOf(shape: NoseShape, c: Curves, length: real, maxRadius: real): Nose
    requires c.pi != 0.0 && length != 0.0 && maxRadius != 0.0
  {
    match shape
    case Cone => Conical
    case Ogive => Shaped((x: real) => OgiveRadius(c.sqrt, length, maxRadius, x))
    case VonKarman => Shaped((x: real) => VonKarmanRadius(c, length, maxRadius, x))
    case Hemisphere => Shaped((x: real) => HemisphereRadius(c.sqrt, maxRadius, x))
  }

  /** A square root is at least any number whose square is at most the radicand. */
  lemma RootAbove(root: real, y: real, z: real)
    requires root >= 0.0 && root * root == y && z * z <= y
    ensures root >= z
  {
    if root < z {
      PositiveProduct(z - root, z + root);
    }
  }

  lemma GeneratingLaw(length: real, r: real)
    requires r > 0.0
    ensures var g := GeneratingRadius(length, r); (g - r) * (g - r) == g * g - length * length
  {
    var g := GeneratingRadius(length, r);
    assert g * (2.0 * r) == length * length + r * r;
  }

  lemma BeforeShoulder(length: real, x: real)
    requires 0.0 <= x <= length
    ensures (length - x) * (length - x) <= length * length
  {
    NonNegativeProduct(x, length + (length - x));
  }

  lemma OgiveNonNegative(c: Curves, length: real, maxRadius: real, x: real)
    requires ValidCurves(c) && length > 0.0 && maxRadius > 0.0 && 0.0 <= x <= length
    ensures OgiveRadius(c.sqrt, length, maxRadius, x) >= 0.0
  {
    hide GeneratingRadius, OgiveRadicand;
    var g := GeneratingRadius(length, maxRadius);
    var y := OgiveRadicand(length, g, x);
    RadicandAbove(length, maxRadius, x);
    RootAbove(c.sqrt(y), y, g - maxRadius);
  }

  lemma RadicandAbove(length: real, r: real, x: real)
    requires r > 0.0 && 0.0 <= x <= length
    ensures var g := GeneratingRadius(length, r);
            0.0 <= OgiveRadicand(length, g, x) && (g - r) * (g - r) <= OgiveRadicand(length, g, x)
  {
    hide GeneratingRadius;
    GeneratingLaw(length, r);
    BeforeShoulder(length, x);
  }

  /** No radius of the program's noses is negative, so the results on the clamp hold for all of them. */
  lemma NosesAreProper(shape: NoseShape, c: Curves, length: real, maxRadius: real)
    requires ValidCurves(c) && length > 0.0 && maxRadius > 0.0
    ensures RadiiNonNegative(NoseOf(shape, c, length, maxRadius), length)
  {
    hide OgiveRadius;
    forall x: real | 0.0 <= x <= length
      ensures OgiveRadius(c.sqrt, length, maxRadius, x) >= 0.0
      ensures VonKarmanRadius(c, length, maxRadius, x) >= 0.0
      ensures HemisphereRadius(c.sqrt, maxRadius, x) >= 0.0
    {
      OgiveNonNegative(c, length, maxRadius, x);
      var theta := c.acos(Clamp(1.0 - 2.0 * x / length, -1.0, 1.0));
      NonNegativeProduct(maxRadius, c.sqrt(Max((theta - 0.5 * c.sin(2.0 * theta)) / c.pi, 0.0)));
    }
  }

  /** The clamp on a body with one of those noses. */
  lemma ClampOnNoses(b: Body, shape: NoseShape, c: Curves)
    requires ValidBody(b) && ValidCurves(c) && b.nose == NoseOf(shape, c, b.noseLength, 0.5 * b.diameter)
    requires Whole(b).area > 0.0
    ensures Clamp(Whole(b).moment / Whole(b).area, 0.0, b.length) != Whole(b).moment / Whole(b).area
            <==> Whole(b).moment < 0.0
    ensures Whole(b).moment < 0.0 ==> b.noseLength + AfterLength(b) > b.length
  {
    hide Whole, NoseOf, Clamp;
    NosesAreProper(shape, c, b.noseLength, 0.5 * b.diameter);
    ClampActsExactly(b);
    if b.noseLength + AfterLength(b) <= b.length {
      ClampIsIdle(b);
    }
  }

  lemma Times3(far: real, x: real, y: real, z: real)
    ensures far * (x + y + z) == far * x + far * y + far * z
  {
  }

  /** Whatever the lengths, no part's moment exceeds the body length times its area. */
  lemma MomentBelow(b: Body)
    requires ValidBody(b) && RadiiNonNegative(b.nose, b.noseLength)
    ensures Whole(b).moment <= b.length * Whole(b).area
  {
    hide Third, Pairs, CylinderPlanform, AfterbodyPlanform;
    NoseMomentBounded(b.nose, b.noseLength, 0.5 * b.diameter, QUADRATURE_STEPS);
    var n, c, a := NosePart(b), CylinderPlanform(b), AfterbodyPlanform(b);
    PartBounded(n, b.noseLength, b.length);
    CylinderBelow(b);
    AfterbodyBelow(b);
    Times3(b.length, n.area, c.area, a.area);
  }

  lemma CylinderBelow(b: Body)
    requires ValidBody(b)
    ensures var p := CylinderPlanform(b); p.area >= 0.0 && p.moment <= b.length * p.area
  {
    if b.noseLength + AfterLength(b) <= b.length {
      CylinderBounded(b);
    }
  }

  lemma AfterbodyBelow(b: Body)
    requires ValidBody(b)
    ensures var p := AfterbodyPlanform(b); p.area >= 0.0 && p.moment <= b.length * p.area
  {
    if b.afterbody.Some? {
      var a := b.afterbody.value.length;
      FrustumBounds(b.diameter, b.afterbody.value.exitDiameter, a);
      var p := AfterbodyPlanform(b);
      assert b.length * p.area == p.area * (b.length - a) + a * p.area;
    }
  }

  /** The clamp of the centroid acts exactly when the summed moment is negative, so only at the nose tip. */
  lemma ClampActsExactly(b: Body)
    requires ValidBody(b) && RadiiNonNegative(b.nose, b.noseLength) && Whole(b).area > 0.0
    ensures Clamp(Whole(b).moment / Whole(b).area, 0.0, b.length) != Whole(b).moment / Whole(b).area
            <==> Whole(b).moment < 0.0
    ensures Whole(b).moment < 0.0 ==> Clamp(Whole(b).moment / Whole(b).area, 0.0, b.length) == 0.0
  {
    hide Whole;
    MomentBelow(b);
    ClampedRatio(Whole(b).moment, Whole(b).area, b.length);
  }

  lemma ClampedRatio(moment: real, area: real, far: real)
    requires area > 0.0 && moment <= far * area && far > 0.0
    ensures Clamp(moment / area, 0.0, far) != moment / area <==> moment < 0.0
    ensures moment < 0.0 ==> Clamp(moment / area, 0.0, far) == 0.0
  {
    if moment < 0.0 {
      NegativeQuotient(moment, area);
    } else {
      Ratio(moment, area, far);
    }
  }

  lemma NegativeQuotient(a: real, b: real)
    requires a < 0.0 && b > 0.0
    ensures a / b < 0.0
  {
    assert (a / b) * b == a;
    if a / b >= 0.0 {
      NonNegativeProduct(a / b, b);
    }
  }

  /**
   * For a conical nose the exact condition in the body's dimensions: the nose and the afterbody overlap, and
   * the afterbody reaches so far in front of the nose tip that its moment outweighs that of the nose.
   */
  lemma OverlapClampsExactly(b: Body)
    requires ValidBody(b) && b.nose == Conical
    ensures Whole(b).area > 0.0
    ensures Clamp(Whole(b).moment / Whole(b).area, 0.0, b.length) != Whole(b).moment / Whole(b).area
            <==> b.noseLength + AfterLength(b) > b.length
                 && b.diameter * (b.noseLength * b.noseLength) / 3.0 + AfterbodyPlanform(b).moment < 0.0
  {
    hide Whole, Third, Pairs, AfterbodyPlanform;
    ConicalParts(b);
    ClampActsExactly(b);
    if b.noseLength + AfterLength(b) <= b.length {
      ClampIsIdle(b);
    }
  }

  lemma ConicalParts(b: Body)
    requires ValidBody(b) && b.nose == Conical
    ensures Whole(b).area > 0.0
    ensures b.noseLength + AfterLength(b) > b.length ==>
              Whole(b).moment == b.diameter * (b.noseLength * b.noseLength) / 3.0 + AfterbodyPlanform(b).moment
  {
    hide Third, Pairs, AfterbodyPlanform;
    ConeIsExact(b.noseLength, 0.5 * b.diameter, QUADRATURE_STEPS);
    PositiveProduct(0.5 * b.diameter, b.noseLength);
    CylinderBelow(b);
    AfterbodyBelow(b);
  }

  /** Such a body: ten metres long with an afterbody of a hundred. */
  lemma SomeCentroidIsClamped()
    ensures var b := Body(1.0, 10.0, Conical, 1.0, Some(Afterbody(1.0, 100.0)));
            && ValidBody(b) && Whole(b).area > 0.0 && Whole(b).moment < 0.0
            && Whole(b).moment / Whole(b).area < 0.0
  {
    var b := Body(1.0, 10.0, Conical, 1.0, Some(Afterbody(1.0, 100.0)));
    hide Third, Pairs;
    ConeIsExact(1.0, 0.5, QUADRATURE_STEPS);
    assert AfterbodyPlanform(b) == Planform(100.0, -4000.0);
    assert CylinderPlanform(b) == Planform(0.0, 0.0);
  }

  lemma PartBounded(p: Planform, near: real, far: real)
    requires p.area >= 0.0 && p.moment <= near * p.area && near <= far
    ensures p.moment <= far * p.area
  {
    NonNegativeProduct(far - near, p.area);
    assert (far - near) * p.area == far * p.area - near * p.area;
  }

  lemma CylinderBounded(b: Body)
    requires ValidBody(b) && b.noseLength + AfterLength(b) <= b.length
    ensures var p := CylinderPlanform(b); p.area >= 0.0 && 0.0 <= p.moment <= b.length * p.area
  {
    var p, c := CylinderPlanform(b), CylinderLength(b);
    NonNegativeProduct(b.diameter, c);
    NonNegativeProduct(p.area, b.noseLength + 0.5 * c);
    NonNegativeProduct(p.area, b.length - (b.noseLength + 0.5 * c));
    assert p.area * (b.length - (b.noseLength + 0.5 * c)) == b.length * p.area - p.moment;
  }

  lemma AfterbodyBounded(b: Body)
    requires ValidBody(b) && b.noseLength + AfterLength(b) <= b.length
    ensures var p := AfterbodyPlanform(b); p.area >= 0.0 && 0.0 <= p.moment <= b.length * p.area
  {
    if b.afterbody.Some? {
      var a, d, e := b.afterbody.value.length, b.diameter, b.afterbody.value.exitDiameter;
      var start := b.length - a;
      FrustumBounds(d, e, a);
      var p := AfterbodyPlanform(b);
      NonNegativeProduct(p.area, start);
      assert b.length * p.area == p.area * start + a * p.area;
    }
  }

  lemma FrustumBounds(d: real, e: real, a: real)
    requires d > 0.0 && e > 0.0 && a > 0.0
    ensures var area, local := 0.5 * (d + e) * a, a * a * (0.5 * d + (e - d) / 3.0);
            area >= 0.0 && 0.0 <= local <= a * area
  {
    NonNegativeProduct(a, a);
    NonNegativeProduct(d + e, a);
    NonNegativeProduct(a * a, d / 6.0 + e / 3.0);
    NonNegativeProduct(a * a, d / 3.0 + e / 6.0);
    assert a * (0.5 * (d + e) * a) == (a * a) * (0.5 * (d + e));
    assert (a * a) * (0.5 * (d + e)) - (a * a) * (d / 6.0 + e / 3.0) == (a * a) * (d / 3.0 + e / 6.0);
  }

  lemma Ratio(moment: real, area: real, far: real)
    requires area > 0.0 && 0.0 <= moment <= far * area
    ensures 0.0 <= moment / area <= far
  {
    var x := moment / area;
    assert x * area == moment;
    Quotient(moment, area);
    NotAbove(x, far, area);
  }

  lemma NotAbove(x: real, far: real, area: real)
    requires area > 0.0 && x * area <= far * area
    ensures x <= far
  {
    if x > far {
      PositiveProduct(x - far, area);
    }
  }
}
