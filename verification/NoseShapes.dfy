/** The shapes of the program's noses: pointed at the tip, as wide as the body at the base, and which arcs they are. */
module NoseShapes {
  import opened Reals
  import opened PlanformGeometry

  /** The facts about arcs that the von Karman formula rests on. */
  ghost predicate ProperArcs(c: Curves) {
    && ValidCurves(c) && c.acos(1.0) == 0.0 && c.acos(-1.0) == c.pi && c.sin(0.0) == 0.0 && c.sin(2.0 * c.pi) == 0.0
  }

  lemma RootOfSquare(c: Curves, z: real, y: real)
    requires ValidCurves(c) && z >= 0.0 && y == z * z
    ensures c.sqrt(y) == z
  {
    NonNegativeProduct(z, z);
    var r := c.sqrt(y);
    if r < z {
      PositiveProduct(z - r, z + r);
    } else if r > z {
      PositiveProduct(r - z, r + z);
    }
  }

  lemma GeneratingAbove(length: real, r: real)
    requires 0.0 < r <= length
    ensures GeneratingRadius(length, r) >= r
  {
    var g := GeneratingRadius(length, r);
    assert g * (2.0 * r) == length * length + r * r;
    if g < r {
      PositiveProduct(r - g, 2.0 * r);
      NonNegativeProduct(length - r, length + r);
    }
  }

  /** The ogive is an arc of a circle: its points are at the generating radius from a centre beside the shoulder. */
  lemma OgiveIsCircle(c: Curves, length: real, maxRadius: real, x: real)
    requires ValidCurves(c) && 0.0 < maxRadius && length > 0.0 && 0.0 <= x <= length
    ensures var g := GeneratingRadius(length, maxRadius);
            var y := OgiveRadius(c.sqrt, length, maxRadius, x) + g - maxRadius;
            y >= 0.0 && y * y + (length - x) * (length - x) == g * g
  {
    hide GeneratingRadius;
    var g := GeneratingRadius(length, maxRadius);
    RadicandAbove(length, maxRadius, x);
    RadicandIsExact(length, maxRadius, x);
    var y := c.sqrt(OgiveRadicand(length, g, x));
    assert y * y == OgiveRadicand(length, g, x);
  }

  lemma RadicandIsExact(length: real, r: real, x: real)
    requires 0.0 < r && 0.0 <= x <= length
    ensures var g := GeneratingRadius(length, r);
            OgiveRadicand(length, g, x) == g * g - (length - x) * (length - x)
  {
    hide GeneratingRadius;
    var g := GeneratingRadius(length, r);
    GeneratingLaw(length, r);
    BeforeShoulder(length, x);
    if g < r {
      NonNegativeProduct(r - g, r - g);
    } else {
      NonNegativeProduct(g - r, g - r);
    }
  }

  /** At least as long as half the diameter, an ogive comes to a point and ends as wide as the body. */
  lemma OgiveEnds(c: Curves, length: real, maxRadius: real)
    requires ValidCurves(c) && 0.0 < maxRadius <= length
    ensures OgiveRadius(c.sqrt, length, maxRadius, 0.0) == 0.0
    ensures OgiveRadius(c.sqrt, length, maxRadius, length) == maxRadius
  {
    hide GeneratingRadius, OgiveRadicand;
    var g := GeneratingRadius(length, maxRadius);
    GeneratingAbove(length, maxRadius);
    GeneratingLaw(length, maxRadius);
    RadicandIsExact(length, maxRadius, 0.0);
    RadicandIsExact(length, maxRadius, length);
    RootOfSquare(c, g - maxRadius, OgiveRadicand(length, g, 0.0));
    RootOfSquare(c, g, OgiveRadicand(length, g, length));
  }

  /** The hemisphere is an arc around the point one radius behind the tip. */
  lemma HemisphereIsCircle(c: Curves, maxRadius: real, x: real)
    requires ValidCurves(c) && maxRadius > 0.0 && 0.0 <= x <= maxRadius
    ensures var y := HemisphereRadius(c.sqrt, maxRadius, x);
            y >= 0.0 && y * y + (x - maxRadius) * (x - maxRadius) == maxRadius * maxRadius
    ensures HemisphereRadius(c.sqrt, maxRadius, 0.0) == 0.0
    ensures HemisphereRadius(c.sqrt, maxRadius, maxRadius) == maxRadius
  {
    ArcInside(maxRadius, x);
    RootOfSquare(c, 0.0, 0.0);
    RootOfSquare(c, maxRadius, maxRadius * maxRadius);
    NonNegativeProduct(maxRadius, maxRadius);
  }

  lemma ArcInside(r: real, x: real)
    requires 0.0 <= x <= r
    ensures r * r - (x - r) * (x - r) >= 0.0
  {
    NonNegativeProduct(x, r + (r - x));
  }

  /** A hemisphere is the ogive that is as long as its base radius. */
  lemma HemisphereIsOgive(c: Curves, maxRadius: real, x: real)
    requires ValidCurves(c) && maxRadius > 0.0 && 0.0 <= x <= maxRadius
    ensures HemisphereRadius(c.sqrt, maxRadius, x) == OgiveRadius(c.sqrt, maxRadius, maxRadius, x)
  {
    var g := GeneratingRadius(maxRadius, maxRadius);
    assert g * (2.0 * maxRadius) == maxRadius * (2.0 * maxRadius);
    Cancel(g, maxRadius, 2.0 * maxRadius);
    SameArc(maxRadius, x);
  }

  lemma SameArc(r: real, x: real)
    ensures Max(r * r - (x - r) * (x - r), 0.0) == OgiveRadicand(r, r, x)
  {
    assert (x - r) * (x - r) == (r - x) * (r - x);
  }

  /** A von Karman nose comes to a point and ends as wide as the body. */
  lemma VonKarmanEnds(c: Curves, length: real, maxRadius: real)
    requires ProperArcs(c) && length > 0.0 && maxRadius > 0.0
    ensures VonKarmanRadius(c, length, maxRadius, 0.0) == 0.0
    ensures VonKarmanRadius(c, length, maxRadius, length) == maxRadius
  {
    RootOfSquare(c, 0.0, 0.0);
    RootOfSquare(c, 1.0, 1.0);
    assert 1.0 - 2.0 * 0.0 / length == 1.0;
    TwoLengths(length);
    assert (0.0 - 0.5 * 0.0) / c.pi == 0.0;
    assert (c.pi - 0.5 * 0.0) / c.pi == 1.0;
  }

  lemma TwoLengths(length: real)
    requires length > 0.0
    ensures 1.0 - 2.0 * length / length == -1.0
  {
    var q := 2.0 * length / length;
    assert q * length == 2.0 * length;
    Cancel(q, 2.0, length);
  }

  /** Sine and cosine of twice an angle, and the arc cosine as an angle with that cosine. */
  ghost predicate DoubleAngles(c: Curves, cos: real -> real) {
    && (forall t: real :: c.sin(2.0 * t) == 2.0 * (c.sin(t) * cos(t)))
    && (forall y: real :: -1.0 <= y <= 1.0 ==> cos(c.acos(y)) == y)
  }

  /**
   * The von Karman profile: the squared radius is the squared base radius times (t - sin t cos t) / pi, where the
   * cosine of t runs from one at the tip to minus one at the base.
   */
  lemma VonKarmanProfile(c: Curves, cos: real -> real, length: real, maxRadius: real, x: real)
    requires ValidCurves(c) && DoubleAngles(c, cos) && length > 0.0 && maxRadius > 0.0 && 0.0 <= x <= length
    ensures -1.0 <= 1.0 - 2.0 * x / length <= 1.0
    ensures var r, t := VonKarmanRadius(c, length, maxRadius, x), c.acos(1.0 - 2.0 * x / length);
            && cos(t) == 1.0 - 2.0 * x / length
            && ((t - c.sin(t) * cos(t)) / c.pi >= 0.0 ==>
                  r * r == maxRadius * maxRadius * ((t - c.sin(t) * cos(t)) / c.pi))
  {
    TipToBase(length, x);
    var t := c.acos(1.0 - 2.0 * x / length);
    var fraction := (t - c.sin(t) * cos(t)) / c.pi;
    assert c.sin(2.0 * t) == 2.0 * (c.sin(t) * cos(t));
    assert t - 0.5 * c.sin(2.0 * t) == t - c.sin(t) * cos(t);
    if fraction >= 0.0 {
      var root := c.sqrt(fraction);
      assert VonKarmanRadius(c, length, maxRadius, x) == maxRadius * root;
      SquareOfProduct(maxRadius, root);
    }
  }

  lemma TipToBase(length: real, x: real)
    requires length > 0.0 && 0.0 <= x <= length
    ensures 0.0 <= 2.0 * x / length <= 2.0
  {
    var q := 2.0 * x / length;
    assert q * length == 2.0 * x;
    if q < 0.0 {
      PositiveProduct(-q, length);
    } else if q > 2.0 {
      PositiveProduct(q - 2.0, length);
    }
  }
}
