/** Looking a deck up: one place per axis in order, one stencil, one reduction per table. */
module DeckLookup {
  import opened Wrappers
  import opened Reals
  import opened DeckInterpolation
  import opened DeckStencil
  import opened AeroDeck

  datatype Query = Query(mach: real, alpha: real, beta: real, deflections: map<string, real>)

  datatype Stencil = Stencil(corners: seq<nat>, fractions: seq<real>)

  /** The queried coordinate on axis `k`; effector axes are read from the deflections by name. */
  function Queried(d: Deck, q: Query, k: nat): Option<real>
    requires k < |d.axisOrder|
  {
    if k == 0 then Some(q.mach)
    else if k == 1 then Some(q.alpha)
    else if k == 2 then Some(q.beta)
    else if d.axisOrder[k] in q.deflections then Some(q.deflections[d.axisOrder[k]])
    else None
  }

  function AxisPlace(d: Deck, q: Query, k: nat): Result<Place, DeckError>
    requires ValidGrid(d.axisOrder, d.axes) && k < |d.axes|
  {
    match Queried(d, q, k)
    case None => Err(InvalidParameter)
    case Some(x) => Bracket(d.axes[k], x, d.extrapolation)
  }

  ghost predicate Answerable(d: Deck, q: Query)
    requires ValidGrid(d.axisOrder, d.axes)
  {
    forall k :: 0 <= k < |d.axes| ==> AxisPlace(d, q, k).Ok?
  }

  ghost function PlacesOf(d: Deck, q: Query): (r: seq<Place>)
    requires ValidGrid(d.axisOrder, d.axes) && Answerable(d, q)
    ensures PlacesFit(d.axes, r)
    ensures forall k :: 0 <= k < |r| ==> 0.0 <= r[k].fraction <= 1.0
  {
    var r := seq(|d.axes|, k requires 0 <= k < |d.axes| => AxisPlace(d, q, k).value);
    assert forall k :: 0 <= k < |r| ==> PlaceFits(d.axes[k], r[k]) && 0.0 <= r[k].fraction <= 1.0 by {
      forall k | 0 <= k < |r|
        ensures PlaceFits(d.axes[k], r[k]) && 0.0 <= r[k].fraction <= 1.0
      {
        assert AxisPlace(d, q, k).Ok?;
        BracketMeaning(d.axes[k], Queried(d, q, k).value, d.extrapolation);
      }
    }
    r
  }

  /** The multilinear interpolant of one of the deck's tables at the query. */
  ghost function Value(d: Deck, table: seq<real>, q: Query): real
    requires ValidGrid(d.axisOrder, d.axes) && Answerable(d, q) && |table| == NodeCount(d.axes)
  {
    Interpolate(table, d.axes, PlacesOf(d, q))
  }

  /** The error of the first axis that has one. */
  ghost predicate FirstError(d: Deck, q: Query, error: DeckError)
    requires ValidGrid(d.axisOrder, d.axes)
  {
    exists k: nat :: k < |d.axes| && AxisPlace(d, q, k) == Err(error)
                     && forall j :: 0 <= j < k ==> AxisPlace(d, q, j).Ok?
  }

  ghost predicate StencilFor(s: Stencil, d: Deck, q: Query)
    requires ValidGrid(d.axisOrder, d.axes) && Answerable(d, q)
  {
    && |s.corners| == Pow2(|d.axes|) && s.fractions == Fractions(PlacesOf(d, q))
    && forall c :: 0 <= c < |s.corners| ==> s.corners[c] == CornerIndex(d.axes, PlacesOf(d, q), c)
  }

  method LookupStencil(d: Deck, q: Query) returns (r: Result<Stencil, DeckError>)
    requires ValidGrid(d.axisOrder, d.axes)
    ensures r.Ok? <==> Answerable(d, q)
    ensures r.Ok? ==> StencilFor(r.value, d, q)
    ensures r.Err? ==> FirstError(d, q, r.error)
  {
    var places := [];
    for k := 0 to |d.axes|
      invariant |places| == k
      invariant forall j :: 0 <= j < k ==> AxisPlace(d, q, j) == Ok(places[j])
    {
      var place := AxisPlace(d, q, k);
      if place.Err? {
        return Err(place.error);
      }
      places := places + [place.value];
    }
    assert places == PlacesOf(d, q);
    var strides := ComputeStrides(d.axes);
    var corners := CollectCornerIndices(d.axes, places, strides);
    return Ok(Stencil(corners, Fractions(places)));
  }

  /** One table reduced over the stencil. */
  method Reduce(ghost d: Deck, ghost q: Query, s: Stencil, table: seq<real>) returns (value: real)
    requires ValidGrid(d.axisOrder, d.axes) && Answerable(d, q) && StencilFor(s, d, q) && |table| == NodeCount(d.axes)
    ensures value == Value(d, table, q)
  {
    ReductionIsInterpolation(table, d.axes, PlacesOf(d, q), s.corners);
    value := MultilinearReduce(table, s.corners, s.fractions);
  }

  method Lookup(d: Deck, q: Query) returns (r: Result<Triple<real>, DeckError>)
    requires ValidDeck(d)
    ensures r.Ok? <==> Answerable(d, q)
    ensures r.Ok? ==> r.value == Triple(Value(d, d.tables.cn, q), Value(d, d.tables.cd, q), Value(d, d.tables.cm, q))
    ensures r.Err? ==> FirstError(d, q, r.error)
  {
    var s := LookupStencil(d, q);
    if s.Err? {
      return Err(s.error);
    }
    var cn := Reduce(d, q, s.value, d.tables.cn);
    var cd := Reduce(d, q, s.value, d.tables.cd);
    var cm := Reduce(d, q, s.value, d.tables.cm);
    return Ok(Triple(cn, cd, cm));
  }

  /** Absent tables answer `None` for every query; one-sigma values are never negative. */
  method LookupSigma(d: Deck, q: Query) returns (r: Result<Option<Triple<real>>, DeckError>)
    requires ValidDeck(d)
    ensures d.sigma.None? ==> r == Ok(None)
    ensures d.sigma.Some? ==> (r.Ok? <==> Answerable(d, q))
    ensures d.sigma.Some? && r.Ok? ==>
              r.value == Some(Triple(Value(d, d.sigma.value.cn, q), Value(d, d.sigma.value.cd, q),
                                     Value(d, d.sigma.value.cm, q)))
              && r.value.value.cn >= 0.0 && r.value.value.cd >= 0.0 && r.value.value.cm >= 0.0
    ensures r.Err? ==> FirstError(d, q, r.error)
  {
    if d.sigma.None? {
      return Ok(None);
    }
    var s := LookupStencil(d, q);
    if s.Err? {
      return Err(s.error);
    }
    var cn := Reduce(d, q, s.value, d.sigma.value.cn);
    var cd := Reduce(d, q, s.value, d.sigma.value.cd);
    var cm := Reduce(d, q, s.value, d.sigma.value.cm);
    ValueNonNegative(d, d.sigma.value.cn, q);
    ValueNonNegative(d, d.sigma.value.cd, q);
    ValueNonNegative(d, d.sigma.value.cm, q);
    return Ok(Some(Triple(cn, cd, cm)));
  }

  method LookupDynamicDerivatives(d: Deck, q: Query) returns (r: Result<Option<Derivatives<real>>, DeckError>)
    requires ValidDeck(d)
    ensures d.dynamics.None? ==> r == Ok(None)
    ensures d.dynamics.Some? ==> (r.Ok? <==> Answerable(d, q))
    ensures d.dynamics.Some? && r.Ok? ==>
              var t := d.dynamics.value;
              r.value == Some(Derivatives(Value(d, t.clP, q), Value(d, t.clQ, q), Value(d, t.clR, q),
                                          Value(d, t.cmP, q), Value(d, t.cmQ, q), Value(d, t.cmR, q),
                                          Value(d, t.cnP, q), Value(d, t.cnQ, q), Value(d, t.cnR, q)))
    ensures r.Err? ==> FirstError(d, q, r.error)
  {
    if d.dynamics.None? {
      return Ok(None);
    }
    var s := LookupStencil(d, q);
    if s.Err? {
      return Err(s.error);
    }
    var t := d.dynamics.value;
    var clP := Reduce(d, q, s.value, t.clP);
    var clQ := Reduce(d, q, s.value, t.clQ);
    var clR := Reduce(d, q, s.value, t.clR);
    var cmP := Reduce(d, q, s.value, t.cmP);
    var cmQ := Reduce(d, q, s.value, t.cmQ);
    var cmR := Reduce(d, q, s.value, t.cmR);
    var cnP := Reduce(d, q, s.value, t.cnP);
    var cnQ := Reduce(d, q, s.value, t.cnQ);
    var cnR := Reduce(d, q, s.value, t.cnR);
    return Ok(Some(Derivatives(clP, clQ, clR, cmP, cmQ, cmR, cnP, cnQ, cnR)));
  }

  // ---------------------------------------------------------------- when a query is answered, and bounds

  /** Every effector axis has a deflection. */
  predicate Complete(d: Deck, q: Query) {
    forall k :: 3 <= k < |d.axisOrder| ==> d.axisOrder[k] in q.deflections
  }

  predicate Inside(axis: Axis, x: real)
    requires |axis| > 0
  {
    axis[0] <= x <= axis[|axis| - 1]
  }

  /** A query is answered exactly when it is complete and, under fail-closed, inside every axis. */
  lemma AnsweredExactly(d: Deck, q: Query)
    requires ValidGrid(d.axisOrder, d.axes)
    ensures Answerable(d, q) <==>
            Complete(d, q) && (d.extrapolation == FailClosed ==>
                               forall k :: 0 <= k < |d.axes| ==> Inside(d.axes[k], Queried(d, q, k).value))
  {
    forall k | 0 <= k < |d.axes|
      ensures AxisPlace(d, q, k).Ok? <==>
              Queried(d, q, k).Some? && (d.extrapolation == Clamp || Inside(d.axes[k], Queried(d, q, k).value))
    {
      if Queried(d, q, k).Some? {
        BracketMeaning(d.axes[k], Queried(d, q, k).value, d.extrapolation);
      }
    }
    if Answerable(d, q) {
      forall k | 3 <= k < |d.axisOrder| ensures d.axisOrder[k] in q.deflections {
        assert AxisPlace(d, q, k).Ok?;
      }
    }
  }

  /** Bounds of the 2^N surrounding entries bound the looked-up value. */
  lemma ValueBounded(d: Deck, table: seq<real>, q: Query, min: real, max: real)
    requires ValidGrid(d.axisOrder, d.axes) && Answerable(d, q) && |table| == NodeCount(d.axes)
    requires forall c :: 0 <= c < Pow2(|d.axes|) ==> min <= CornerValues(table, d.axes, PlacesOf(d, q))[c] <= max
    ensures min <= Value(d, table, q) <= max
  {
    ResultBounded(table, d.axes, PlacesOf(d, q), min, max);
  }

  lemma ValueNonNegative(d: Deck, table: seq<real>, q: Query)
    requires ValidGrid(d.axisOrder, d.axes) && Answerable(d, q) && |table| == NodeCount(d.axes)
    requires NonNegative(table)
    ensures Value(d, table, q) >= 0.0
  {
    var max := Highest(table);
    forall c | 0 <= c < Pow2(|d.axes|)
      ensures 0.0 <= CornerValues(table, d.axes, PlacesOf(d, q))[c] <= max
    {
      CornerInRange(d.axes, PlacesOf(d, q), c);
    }
    ValueBounded(d, table, q, 0.0, max);
  }

  ghost function Highest(s: seq<real>): (m: real)
    ensures forall i :: 0 <= i < |s| ==> s[i] <= m
  {
    if |s| == 0 then 0.0 else
      var m := Highest(s[1..]);
      if s[0] > m then s[0] else m
  }

  // ---------------------------------------------------------------- clamping

  /** Position of a name in the axis order, or its length. */
  function IndexOf(order: seq<string>, name: string): (k: nat)
    ensures k <= |order| && (k < |order| ==> order[k] == name)
    ensures forall j :: 0 <= j < k ==> order[j] != name
  {
    if |order| == 0 || order[0] == name then 0 else 1 + IndexOf(order[1..], name)
  }

  function ClampedDeflection(d: Deck, name: string, x: real): real
    requires ValidGrid(d.axisOrder, d.axes)
  {
    var k := IndexOf(d.axisOrder, name);
    if k < |d.axes| then Clamped(d.axes[k], x) else x
  }

  /** The query with every coordinate moved to the nearest point of its axis. */
  function ClampedQuery(d: Deck, q: Query): Query
    requires ValidGrid(d.axisOrder, d.axes)
  {
    Query(Clamped(d.axes[0], q.mach), Clamped(d.axes[1], q.alpha), Clamped(d.axes[2], q.beta),
          map name | name in q.deflections :: ClampedDeflection(d, name, q.deflections[name]))
  }

  /** Clamping is fail-closed lookup at the clamped query, for every table. */
  lemma ClampIsFailClosedInside(d: Deck, table: seq<real>, q: Query)
    requires ValidGrid(d.axisOrder, d.axes) && |table| == NodeCount(d.axes)
    ensures var open, closed := d.(extrapolation := Clamp), d.(extrapolation := FailClosed);
            && (Answerable(open, q) <==> Answerable(closed, ClampedQuery(d, q)))
            && (Answerable(open, q) ==> Value(open, table, q) == Value(closed, table, ClampedQuery(d, q)))
  {
    var open, closed := d.(extrapolation := Clamp), d.(extrapolation := FailClosed);
    var to := ClampedQuery(d, q);
    forall k | 0 <= k < |d.axes|
      ensures AxisPlace(open, q, k) == AxisPlace(closed, to, k)
    {
      ClampedAxis(d, q, k);
    }
    assert Answerable(open, q) <==> Answerable(closed, to) by {
      if Answerable(open, q) {
        forall k | 0 <= k < |d.axes| ensures AxisPlace(closed, to, k).Ok? {
          assert AxisPlace(open, q, k).Ok?;
        }
      }
      if Answerable(closed, to) {
        forall k | 0 <= k < |d.axes| ensures AxisPlace(open, q, k).Ok? {
          assert AxisPlace(closed, to, k).Ok?;
        }
      }
    }
    if Answerable(open, q) {
      assert PlacesOf(open, q) == PlacesOf(closed, to);
    }
  }

  lemma ClampedAxis(d: Deck, q: Query, k: nat)
    requires ValidGrid(d.axisOrder, d.axes) && k < |d.axes|
    ensures AxisPlace(d.(extrapolation := Clamp), q, k)
            == AxisPlace(d.(extrapolation := FailClosed), ClampedQuery(d, q), k)
  {
    hide Bracket, Blend, Coordinate;
    var x := Queried(d, q, k);
    if x.Some? {
      var i := IndexOf(d.axisOrder, d.axisOrder[k]);
      assert i == k;
      BracketMeaning(d.axes[k], x.value, Clamp);
    }
  }

  // ---------------------------------------------------------------- exactness and nodes

  /** The queried coordinates moved inside the grid. */
  ghost function ClampedCoordinates(d: Deck, q: Query): (r: seq<real>)
    requires ValidGrid(d.axisOrder, d.axes) && Complete(d, q)
  {
    seq(|d.axes|, k requires 0 <= k < |d.axes| => Clamped(d.axes[k], Queried(d, q, k).value))
  }

  lemma {:induction false} CoordinatesAt(axes: seq<Axis>, places: seq<Place>, k: nat)
    requires PlacesFit(axes, places) && k < |axes|
    ensures Coordinates(axes, places)[k] == Coordinate(axes[k], places[k])
  {
    if k > 0 {
      CoordinatesAt(axes[1..], places[1..], k - 1);
    }
  }

  /**
   * A table sampled from any function that is affine in each axis separately is looked up exactly:
   * the value is that function at the clamped query, so at the query itself when it is in the grid.
   */
  lemma ExactLookup(d: Deck, table: seq<real>, q: Query, g: seq<real> -> real)
    requires ValidGrid(d.axisOrder, d.axes) && Answerable(d, q) && |table| == NodeCount(d.axes)
    requires Multilinear(g, |d.axes|) && Samples(table, d.axes, g)
    ensures Complete(d, q) && Value(d, table, q) == g(ClampedCoordinates(d, q))
    ensures (forall k :: 0 <= k < |d.axes| ==> Inside(d.axes[k], Queried(d, q, k).value)) ==>
              ClampedCoordinates(d, q) == seq(|d.axes|, k requires 0 <= k < |d.axes| => Queried(d, q, k).value)
  {
    hide Multilinear, Samples, Blend;
    AnsweredExactly(d, q);
    var places := PlacesOf(d, q);
    ExactOnMultilinear(table, d.axes, places, g);
    forall k | 0 <= k < |d.axes|
      ensures Coordinates(d.axes, places)[k] == ClampedCoordinates(d, q)[k]
    {
      CoordinatesAt(d.axes, places, k);
      BracketMeaning(d.axes[k], Queried(d, q, k).value, d.extrapolation);
    }
    assert Coordinates(d.axes, places) == ClampedCoordinates(d, q);
  }

  /**
   * Which coordinate goes to which axis: the first three are Mach number, angle of attack and sideslip, every
   * further one is the deflection of the effector that names the axis.
   */
  lemma CoordinatesByName(d: Deck, q: Query)
    requires ValidGrid(d.axisOrder, d.axes) && Complete(d, q)
    ensures forall k :: 0 <= k < |d.axes| ==> Inside(d.axes[k], Clamped(d.axes[k], Queried(d, q, k).value))
    ensures Inside(d.axes[0], q.mach) ==> ClampedCoordinates(d, q)[0] == q.mach
    ensures Inside(d.axes[1], q.alpha) ==> ClampedCoordinates(d, q)[1] == q.alpha
    ensures Inside(d.axes[2], q.beta) ==> ClampedCoordinates(d, q)[2] == q.beta
    ensures forall k, name :: 3 <= k < |d.axes| && name == d.axisOrder[k] && Inside(d.axes[k], q.deflections[name]) ==>
              ClampedCoordinates(d, q)[k] == q.deflections[name]
  {
    forall k | 0 <= k < |d.axes|
      ensures Inside(d.axes[k], Clamped(d.axes[k], Queried(d, q, k).value))
    {
      if |d.axes[k]| > 1 {
        IncreasingOrder(d.axes[k], 0, |d.axes[k]| - 1);
      }
    }
  }

  /** On three axes a table of samples of g(mach, alpha, beta) answers g at the query. */
  lemma ExactOnThree(d: Deck, table: seq<real>, q: Query, g: seq<real> -> real)
    requires ValidGrid(d.axisOrder, d.axes) && |d.axes| == 3 && Answerable(d, q) && |table| == NodeCount(d.axes)
    requires Multilinear(g, 3) && Samples(table, d.axes, g)
    requires Inside(d.axes[0], q.mach) && Inside(d.axes[1], q.alpha) && Inside(d.axes[2], q.beta)
    ensures Value(d, table, q) == g([q.mach, q.alpha, q.beta])
  {
    hide Multilinear, Samples, Value, NodeCount, Inside, Clamped;
    ExactLookup(d, table, q, g);
    CoordinatesByName(d, q);
    assert ClampedCoordinates(d, q) == [q.mach, q.alpha, q.beta];
  }

  /** The query names the grid node `at`. */
  ghost predicate AtNode(d: Deck, q: Query, at: seq<nat>)
    requires ValidGrid(d.axisOrder, d.axes)
  {
    && |at| == |d.axes| && (forall k :: 0 <= k < |at| ==> at[k] < |d.axes[k]|)
    && forall k :: 0 <= k < |at| ==> Queried(d, q, k) == Some(d.axes[k][at[k]])
  }

  /** At a grid node every policy answers, with the stored entry. */
  lemma NodeLookup(d: Deck, table: seq<real>, q: Query, at: seq<nat>)
    requires ValidGrid(d.axisOrder, d.axes) && |table| == NodeCount(d.axes) && AtNode(d, q, at)
    ensures Answerable(d, q) && Value(d, table, q) == EntryAt(table, d.axes, at)
  {
    forall k | 0 <= k < |d.axes|
      ensures AxisPlace(d, q, k).Ok? && OnNode(d.axes[k], AxisPlace(d, q, k).value, at[k])
    {
      BracketOnNode(d.axes[k], at[k], d.extrapolation);
    }
    NodeIsStored(table, d.axes, PlacesOf(d, q), at);
  }

  // ---------------------------------------------------------------- independence of the cell

  lemma BlendBeyond(f: real, a: real, b: real)
    requires 0.0 <= f <= 1.0 && a < b
    ensures a <= Blend(f, a, b) <= b
    ensures Blend(f, a, b) == a ==> f == 0.0
    ensures Blend(f, a, b) == b ==> f == 1.0
  {
    assert Blend(f, a, b) == a + f * (b - a) == b - (1.0 - f) * (b - a);
    NonNegativeProduct(f, b - a);
    NonNegativeProduct(1.0 - f, b - a);
  }

  lemma BlendOnce(f: real, g: real, a: real, b: real)
    requires a < b && Blend(f, a, b) == Blend(g, a, b)
    ensures f == g
  {
    assert Blend(f, a, b) - Blend(g, a, b) == (f - g) * (b - a);
  }

  /** On an increasing axis a coordinate has one place, or is a grid point with its two adjacent cells. */
  lemma CoordinateDetermines(axis: Axis, p: Place, q: Place)
    requires ValidAxis(axis) && PlaceFits(axis, p) && PlaceFits(axis, q)
    requires 0.0 <= p.fraction <= 1.0 && 0.0 <= q.fraction <= 1.0 && Coordinate(axis, p) == Coordinate(axis, q)
    ensures SamePoint(axis, p, q)
  {
    hide Blend;
    if |axis| == 1 {
      assert OnNode(axis, p, 0) && OnNode(axis, q, 0);
    } else if p.index == q.index {
      BlendOnce(p.fraction, q.fraction, axis[p.index], axis[p.index + 1]);
    } else if p.index < q.index {
      NextCell(axis, p, q);
    } else {
      NextCell(axis, q, p);
    }
  }

  lemma NextCell(axis: Axis, p: Place, q: Place)
    requires ValidAxis(axis) && |axis| > 1 && PlaceFits(axis, p) && PlaceFits(axis, q) && p.index < q.index
    requires 0.0 <= p.fraction <= 1.0 && 0.0 <= q.fraction <= 1.0 && Coordinate(axis, p) == Coordinate(axis, q)
    ensures OnNode(axis, p, q.index) && OnNode(axis, q, q.index)
  {
    hide Blend;
    var i, j := p.index, q.index;
    BlendBeyond(p.fraction, axis[i], axis[i + 1]);
    BlendBeyond(q.fraction, axis[j], axis[j + 1]);
    if i + 1 < j {
      IncreasingOrder(axis, i + 1, j);
    }
  }

  /** Places that stand for the query moved into the grid, in whichever cells. */
  ghost predicate PlacesFor(d: Deck, q: Query, places: seq<Place>)
    requires ValidGrid(d.axisOrder, d.axes) && Complete(d, q)
  {
    && PlacesFit(d.axes, places)
    && forall k :: 0 <= k < |places| ==>
         0.0 <= places[k].fraction <= 1.0
         && Coordinate(d.axes[k], places[k]) == Clamped(d.axes[k], Queried(d, q, k).value)
  }

  /**
   * The looked-up value does not depend on the cells that bracketing picked: any places that stand for the
   * same point of the grid give it, so it is the same from either side of every breakpoint.
   */
  lemma ValueIsOfTheQuery(d: Deck, table: seq<real>, q: Query, places: seq<Place>)
    requires ValidGrid(d.axisOrder, d.axes) && Answerable(d, q) && |table| == NodeCount(d.axes)
    requires Complete(d, q) && PlacesFor(d, q, places)
    ensures PlacesFor(d, q, PlacesOf(d, q))
    ensures Value(d, table, q) == Interpolate(table, d.axes, places)
  {
    hide Interpolate, Coordinate, Bracket, SamePoint, Queried;
    var chosen := PlacesOf(d, q);
    forall k | 0 <= k < |d.axes|
      ensures Coordinate(d.axes[k], chosen[k]) == Clamped(d.axes[k], Queried(d, q, k).value)
      ensures SamePoint(d.axes[k], chosen[k], places[k])
    {
      assert AxisPlace(d, q, k).Ok?;
      BracketMeaning(d.axes[k], Queried(d, q, k).value, d.extrapolation);
      CoordinateDetermines(d.axes[k], chosen[k], places[k]);
    }
    AdjacentCellsAgree(table, d.axes, chosen, places);
  }

  // ---------------------------------------------------------------- three axes, explicitly

  /** Row-major storage of a three-axis deck, last axis fastest. */
  function Flat(axes: seq<Axis>, i: nat, j: nat, k: nat): nat
    requires |axes| == 3
  {
    Times(Times(i, |axes[1]|) + j, |axes[2]|) + k
  }

  lemma CountOfThree(axes: seq<Axis>)
    requires |axes| == 3
    ensures NodeCount(axes[2..]) == |axes[2]|
    ensures NodeCount(axes[1..]) == Times(|axes[1]|, |axes[2]|)
    ensures NodeCount(axes) == Times(|axes[0]|, Times(|axes[1]|, |axes[2]|))
  {
    hide Times;
    var two, one := axes[1..], axes[2..];
    assert two[1..] == one && one[1..] == [];
    TimesOne(|axes[2]|);
    assert NodeCount(one) == |axes[2]|;
    assert NodeCount(two) == Times(|axes[1]|, |axes[2]|);
  }

  lemma EntryStep<T>(table: seq<T>, axes: seq<Axis>, at: seq<nat>)
    requires |at| == |axes| > 0 && |table| == NodeCount(axes)
    requires forall k :: 0 <= k < |axes| ==> at[k] < |axes[k]|
    ensures EntryAt(table, axes, at)
            == EntryAt(Block(table, NodeCount(axes[1..]), |axes[0]|, at[0]), axes[1..], at[1..])
  {
  }

  lemma EntryOfThree<T>(table: seq<T>, axes: seq<Axis>, i: nat, j: nat, k: nat)
    requires |axes| == 3 && |table| == NodeCount(axes) && i < |axes[0]| && j < |axes[1]| && k < |axes[2]|
    ensures Flat(axes, i, j, k) < |table|
    ensures EntryAt(table, axes, [i, j, k]) == table[Flat(axes, i, j, k)]
  {
    hide EntryAt, Block, Times, NodeCount;
    var nj, nk := |axes[1]|, |axes[2]|;
    var two, one := axes[1..], axes[2..];
    assert two[1..] == one && one[1..] == [];
    CountOfThree(axes);
    CountOfNone();
    TimesOne(nk);
    TimesOne(k);
    var outer := Block(table, Times(nj, nk), |axes[0]|, i);
    var inner := Block(outer, nk, nj, j);
    assert [i, j, k][1..] == [j, k] && [j, k][1..] == [k] && [k][1..] == [];
    EntryStep(table, axes, [i, j, k]);
    EntryStep(outer, two, [j, k]);
    EntryStep(inner, one, [k]);
    NoAxisEntry(Block(inner, 1, nk, k));
    BlockEntry(inner, 1, nk, k, 0);
    BlockEntry(outer, nk, nj, j, k);
    BlockEntry(table, Times(nj, nk), |axes[0]|, i, Times(j, nk) + k);
    SliceIndex(i, nj, nk, k, j);
  }

  lemma CountOfNone()
    ensures NodeCount([]) == 1
  {
  }

  lemma NoAxisEntry<T>(table: seq<T>)
    requires |table| == 1
    ensures EntryAt(table, [], []) == table[0]
  {
  }

  lemma BlockEntry<T>(table: seq<T>, size: nat, count: nat, i: nat, k: nat)
    requires |table| == Times(count, size) && i < count && k < size
    ensures Times(i, size) + k < |table| && Block(table, size, count, i)[k] == table[Times(i, size) + k]
  {
    BlockFits(size, count, i);
  }

  function CornerOfThree(axes: seq<Axis>, places: seq<Place>, a: nat, b: nat, c: nat): nat
    requires |axes| == 3 && PlacesFit(axes, places)
  {
    Flat(axes, Side(axes[0], places[0], a), Side(axes[1], places[1], b), Side(axes[2], places[2], c))
  }

  /** The stored value at a corner of the cell: 0 for the lower side of an axis, 1 for the upper. */
  function Corner(table: seq<real>, axes: seq<Axis>, places: seq<Place>, a: nat, b: nat, c: nat): real
    requires |axes| == 3 && PlacesFit(axes, places) && |table| == NodeCount(axes) && a < 2 && b < 2 && c < 2
  {
    EntryOfThree(table, axes, Side(axes[0], places[0], a), Side(axes[1], places[1], b), Side(axes[2], places[2], c));
    table[CornerOfThree(axes, places, a, b, c)]
  }

  /** On three axes the lookup is the trilinear formula over the eight stored corners. */
  lemma Trilinear(table: seq<real>, axes: seq<Axis>, places: seq<Place>)
    requires |axes| == 3 && PlacesFit(axes, places) && |table| == NodeCount(axes)
    ensures var u, v, w := places[0].fraction, places[1].fraction, places[2].fraction;
            Interpolate(table, axes, places) ==
            Blend(u, Blend(v, Blend(w, Corner(table, axes, places, 0, 0, 0), Corner(table, axes, places, 0, 0, 1)),
                              Blend(w, Corner(table, axes, places, 0, 1, 0), Corner(table, axes, places, 0, 1, 1))),
                     Blend(v, Blend(w, Corner(table, axes, places, 1, 0, 0), Corner(table, axes, places, 1, 0, 1)),
                              Blend(w, Corner(table, axes, places, 1, 1, 0), Corner(table, axes, places, 1, 1, 1))))
  {
    hide Blend, EntryAt, Block, Interpolate, NodeCount, Times;
    InterpolateStep(table, axes, places);
    SideOfThree(table, axes, places, 0);
    SideOfThree(table, axes, places, 1);
  }

  lemma InterpolateStep(table: seq<real>, axes: seq<Axis>, places: seq<Place>)
    requires |axes| > 0 && PlacesFit(axes, places) && |table| == NodeCount(axes)
    ensures NodeCount(axes) == Times(|axes[0]|, NodeCount(axes[1..]))
    ensures var rest := NodeCount(axes[1..]);
            Interpolate(table, axes, places) ==
            Blend(places[0].fraction,
                  Interpolate(Block(table, rest, |axes[0]|, Side(axes[0], places[0], 0)), axes[1..], places[1..]),
                  Interpolate(Block(table, rest, |axes[0]|, Side(axes[0], places[0], 1)), axes[1..], places[1..]))
  {
    hide Blend, Block, Times;
  }

  /** One face of the cell, interpolated over the last two axes. */
  lemma SideOfThree(table: seq<real>, axes: seq<Axis>, places: seq<Place>, a: nat)
    requires |axes| == 3 && PlacesFit(axes, places) && |table| == NodeCount(axes) && a < 2
    ensures NodeCount(axes) == Times(|axes[0]|, NodeCount(axes[1..]))
    ensures var v, w := places[1].fraction, places[2].fraction;
            Interpolate(Block(table, NodeCount(axes[1..]), |axes[0]|, Side(axes[0], places[0], a)), axes[1..],
                        places[1..])
            == Blend(v, Blend(w, Corner(table, axes, places, a, 0, 0), Corner(table, axes, places, a, 0, 1)),
                        Blend(w, Corner(table, axes, places, a, 1, 0), Corner(table, axes, places, a, 1, 1)))
  {
    hide Blend, EntryAt, Block, Interpolate, Times;
    var two, one := axes[1..], axes[2..];
    var face := Block(table, NodeCount(two), |axes[0]|, Side(axes[0], places[0], a));
    assert two[1..] == one && places[1..][1..] == places[2..];
    InterpolateStep(face, two, places[1..]);
    EdgeOfThree(table, axes, places, a, 0);
    EdgeOfThree(table, axes, places, a, 1);
  }

  /** One edge of the cell, interpolated over the last axis. */
  lemma EdgeOfThree(table: seq<real>, axes: seq<Axis>, places: seq<Place>, a: nat, b: nat)
    requires |axes| == 3 && PlacesFit(axes, places) && |table| == NodeCount(axes) && a < 2 && b < 2
    ensures NodeCount(axes) == Times(|axes[0]|, NodeCount(axes[1..]))
    ensures NodeCount(axes[1..]) == Times(|axes[1]|, NodeCount(axes[2..]))
    ensures var face := Block(table, NodeCount(axes[1..]), |axes[0]|, Side(axes[0], places[0], a));
            Interpolate(Block(face, NodeCount(axes[2..]), |axes[1]|, Side(axes[1], places[1], b)), axes[2..],
                        places[2..])
            == Blend(places[2].fraction, Corner(table, axes, places, a, b, 0), Corner(table, axes, places, a, b, 1))
  {
    hide Blend, EntryAt, Block, Interpolate, Times;
    var two, one := axes[1..], axes[2..];
    TimesOne(|axes[2]|);
    assert two[1..] == one && one[1..] == [];
    var i, j := Side(axes[0], places[0], a), Side(axes[1], places[1], b);
    var face := Block(table, NodeCount(two), |axes[0]|, i);
    var edge := Block(face, NodeCount(one), |axes[1]|, j);
    InterpolateStep(edge, one, places[2..]);
    EdgeEnd(table, axes, i, j, Side(axes[2], places[2], 0), places[2..][1..]);
    EdgeEnd(table, axes, i, j, Side(axes[2], places[2], 1), places[2..][1..]);
  }

  lemma EdgeEnd(table: seq<real>, axes: seq<Axis>, i: nat, j: nat, k: nat, none: seq<Place>)
    requires |axes| == 3 && |table| == NodeCount(axes) && i < |axes[0]| && j < |axes[1]| && k < |axes[2]| && none == []
    ensures NodeCount(axes[1..]) == Times(|axes[1]|, NodeCount(axes[2..])) && NodeCount(axes[2..]) == |axes[2]|
    ensures Flat(axes, i, j, k) < |table|
    ensures var edge := Block(Block(table, NodeCount(axes[1..]), |axes[0]|, i), NodeCount(axes[2..]), |axes[1]|, j);
            Interpolate(Block(edge, 1, |axes[2]|, k), [], none) == table[Flat(axes, i, j, k)]
  {
    hide Block, Times;
    assert axes[1..][1..] == axes[2..] && axes[2..][1..] == [];
    var nj, nk := |axes[1]|, |axes[2]|;
    CountOfThree(axes);
    TimesOne(nk);
    TimesOne(k);
    var face := Block(table, Times(nj, nk), |axes[0]|, i);
    var edge := Block(face, nk, nj, j);
    BlockEntry(edge, 1, nk, k, 0);
    BlockEntry(face, nk, nj, j, k);
    BlockEntry(table, Times(nj, nk), |axes[0]|, i, Times(j, nk) + k);
    SliceIndex(i, nj, nk, k, j);
  }

  // ---------------------------------------------------------------- slicing an effector axis

  function SliceTriple(t: Triple<seq<real>>, width: nat, count: nat, j: nat): Triple<seq<real>>
    requires Sized(t, Times(count, width)) && j < width
  {
    Triple(Slice(t.cn, width, count, j), Slice(t.cd, width, count, j), Slice(t.cm, width, count, j))
  }

  /** The deck one axis shorter that holds the tables at point `j` of the last axis. */
  function SliceDeck(d: Deck, j: nat): Deck
    requires ValidDeck(d) && |d.axes| > 3 && j < |d.axes[|d.axes| - 1]|
  {
    var n := |d.axes| - 1;
    var width, count := |d.axes[n]|, NodeCount(d.axes[..n]);
    LastAxis(d.axes);
    Deck(d.axisOrder[..n], d.axes[..n], SliceTriple(d.tables, width, count, j), None, None,
         d.referenceArea, d.referenceLength, d.extrapolation)
  }

  lemma LastAxis(axes: seq<Axis>)
    requires |axes| > 0
    ensures axes == axes[..|axes| - 1] + [axes[|axes| - 1]]
    ensures NodeCount(axes) == Times(NodeCount(axes[..|axes| - 1]), |axes[|axes| - 1]|)
  {
    hide *;
    var init, last := axes[..|axes| - 1], axes[|axes| - 1];
    assert axes == init + [last];
    NodeCountAppend(init, last);
  }

  /**
   * Slicing: when the last (effector) coordinate is a breakpoint, looking up any table of the deck is
   * looking up that slice of the table in the deck without the last axis, for the same query; the
   * shorter deck is well formed and answers exactly the same queries.
   */
  lemma SliceLaw(d: Deck, table: seq<real>, q: Query, j: nat)
    requires ValidDeck(d) && |d.axes| > 3 && |table| == NodeCount(d.axes)
    requires var n := |d.axes| - 1; j < |d.axes[n]| && Queried(d, q, n) == Some(d.axes[n][j])
    ensures var n := |d.axes| - 1;
            var s := SliceDeck(d, j);
            && NodeCount(d.axes) == Times(NodeCount(s.axes), |d.axes[n]|)
            && ValidDeck(s) && (Answerable(s, q) <==> Answerable(d, q))
            && (Answerable(d, q) ==> Value(d, table, q) == Value(s, Slice(table, |d.axes[n]|, NodeCount(s.axes), j), q))
  {
    hide Interpolate, Slice, NodeCount, Times, Bracket, Blend;
    var n := |d.axes| - 1;
    var s := SliceDeck(d, j);
    LastAxis(d.axes);
    BracketOnNode(d.axes[n], j, d.extrapolation);
    assert forall k :: 0 <= k < n ==> AxisPlace(d, q, k) == AxisPlace(s, q, k);
    assert AxisPlace(d, q, n).Ok?;
    if Answerable(d, q) {
      forall k | 0 <= k < n ensures AxisPlace(s, q, k).Ok? {
        assert AxisPlace(d, q, k).Ok?;
      }
    }
    if Answerable(s, q) {
      forall k | 0 <= k < n ensures AxisPlace(d, q, k).Ok? {
        assert AxisPlace(s, q, k).Ok?;
      }
      var p := AxisPlace(d, q, n).value;
      assert PlacesOf(d, q) == PlacesOf(s, q) + [p];
      SliceLookup(table, s.axes, d.axes[n], PlacesOf(s, q), p, j);
    }
  }
}
