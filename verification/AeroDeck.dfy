/** The N-axis aerodynamic deck: construction checks, bracketing of queries, and lookup. */
module AeroDeck {
  import opened Wrappers
  import opened Reals
  import opened DeckInterpolation

  datatype Policy = FailClosed | Clamp

  datatype DeckError = MalformedDeck | InvalidParameter | OutOfEnvelope

  datatype Triple<T> = Triple(cn: T, cd: T, cm: T)

  /** Moment derivatives by rate: roll, pitch and yaw moment with respect to roll, pitch and yaw rate. */
  datatype Derivatives<T> = Derivatives(clP: T, clQ: T, clR: T, cmP: T, cmQ: T, cmR: T, cnP: T, cnQ: T, cnR: T)

  datatype Deck = Deck(axisOrder: seq<string>, axes: seq<Axis>, tables: Triple<seq<real>>,
                       sigma: Option<Triple<seq<real>>>, dynamics: Option<Derivatives<seq<real>>>,
                       referenceArea: real, referenceLength: real, extrapolation: Policy)

  // ---------------------------------------------------------------- construction

  predicate ValidAxis(axis: Axis) {
    |axis| > 0 && Increasing(axis)
  }

  predicate ValidOrder(order: seq<string>) {
    && 3 <= |order| <= 6 && order[0] == "mach" && order[1] == "alpha" && order[2] == "beta"
    && forall i, j :: 0 <= i < j < |order| ==> order[i] != order[j]
  }

  predicate ValidGrid(order: seq<string>, axes: seq<Axis>) {
    ValidOrder(order) && |axes| == |order| && forall k :: 0 <= k < |axes| ==> ValidAxis(axes[k])
  }

  predicate Sized(t: Triple<seq<real>>, n: nat) {
    |t.cn| == n && |t.cd| == n && |t.cm| == n
  }

  predicate NonNegative(s: seq<real>) {
    forall i :: 0 <= i < |s| ==> s[i] >= 0.0
  }

  predicate DerivativesSized(t: Derivatives<seq<real>>, n: nat) {
    && |t.clP| == n && |t.clQ| == n && |t.clR| == n && |t.cmP| == n && |t.cmQ| == n && |t.cmR| == n
    && |t.cnP| == n && |t.cnQ| == n && |t.cnR| == n
  }

  /** What every constructed deck satisfies. */
  ghost predicate ValidDeck(d: Deck) {
    var n := NodeCount(d.axes);
    && ValidGrid(d.axisOrder, d.axes) && Sized(d.tables, n)
    && (d.sigma.Some? ==> Sized(d.sigma.value, n) && NonNegative(d.sigma.value.cn)
                          && NonNegative(d.sigma.value.cd) && NonNegative(d.sigma.value.cm))
    && (d.dynamics.Some? ==> DerivativesSized(d.dynamics.value, n))
    && d.referenceArea > 0.0 && d.referenceLength > 0.0
  }

  method ValidateAxis(axis: Axis) returns (ok: bool)
    ensures ok <==> ValidAxis(axis)
  {
    if |axis| == 0 {
      return false;
    }
    for i := 1 to |axis|
      invariant forall j :: 0 < j < i ==> axis[j - 1] < axis[j]
    {
      if axis[i] <= axis[i - 1] {
        return false;
      }
    }
    return true;
  }

  method ValidateAxisOrder(order: seq<string>) returns (ok: bool)
    ensures ok <==> ValidOrder(order)
  {
    if |order| < 3 || |order| > 6 || order[0] != "mach" || order[1] != "alpha" || order[2] != "beta" {
      return false;
    }
    var seen := {};
    for i := 0 to |order|
      invariant seen == set s | s in order[..i]
      invariant forall j, k :: 0 <= j < k < i ==> order[j] != order[k]
    {
      if order[i] in seen {
        return false;
      }
      seen := seen + {order[i]};
      assert order[..i + 1] == order[..i] + [order[i]];
    }
    return true;
  }

  method ProductOfLengths(axes: seq<Axis>) returns (n: nat)
    ensures n == NodeCount(axes)
  {
    hide Times;
    n := 1;
    TimesOne(NodeCount(axes));
    for k := 0 to |axes|
      invariant Times(n, NodeCount(axes[k..])) == NodeCount(axes)
    {
      assert axes[k..][0] == axes[k] && axes[k..][1..] == axes[k + 1..];
      TimesAgain(n, |axes[k]|, NodeCount(axes[k + 1..]));
      n := Times(n, |axes[k]|);
    }
    TimesOne(n);
  }

  /** Accepts exactly the well-formed decks, and stores what it was given. */
  method NewND(order: seq<string>, axes: seq<Axis>, tables: Triple<seq<real>>, area: real, length: real)
    returns (r: Result<Deck, DeckError>)
    ensures r.Ok? <==> ValidDeck(Deck(order, axes, tables, None, None, area, length, FailClosed))
    ensures r.Ok? ==> r.value == Deck(order, axes, tables, None, None, area, length, FailClosed)
    ensures r.Err? ==> r.error == if ValidGrid(order, axes) && Sized(tables, NodeCount(axes))
                                  then InvalidParameter else MalformedDeck
  {
    var ok := ValidateAxisOrder(order);
    if !ok || |order| != |axes| {
      return Err(MalformedDeck);
    }
    for k := 0 to |axes|
      invariant forall j :: 0 <= j < k ==> ValidAxis(axes[j])
    {
      ok := ValidateAxis(axes[k]);
      if !ok {
        return Err(MalformedDeck);
      }
    }
    var expected := ProductOfLengths(axes);
    if |tables.cn| != expected || |tables.cd| != expected || |tables.cm| != expected {
      return Err(MalformedDeck);
    }
    if area <= 0.0 || length <= 0.0 {
      return Err(InvalidParameter);
    }
    return Ok(Deck(order, axes, tables, None, None, area, length, FailClosed));
  }

  /** Why a one-sigma table is refused: its length first, then a negative entry. */
  function SigmaFault(s: seq<real>, expected: nat): Option<DeckError> {
    if |s| != expected then Some(MalformedDeck) else if !NonNegative(s) then Some(InvalidParameter) else None
  }

  function FirstFault(a: Option<DeckError>, b: Option<DeckError>): Option<DeckError> {
    if a.Some? then a else b
  }

  method ValidateSigmaTable(s: seq<real>, expected: nat) returns (fault: Option<DeckError>)
    ensures fault == SigmaFault(s, expected)
  {
    if |s| != expected {
      return Some(MalformedDeck);
    }
    for i := 0 to |s|
      invariant forall j :: 0 <= j < i ==> s[j] >= 0.0
    {
      if s[i] < 0.0 {
        return Some(InvalidParameter);
      }
    }
    return None;
  }

  /**
   * Attaches one-sigma tables of the deck's size with no negative entry; anything else is refused
   * with the first fault in table order.
   */
  method WithSigmaTables(d: Deck, sigma: Triple<seq<real>>) returns (r: Result<Deck, DeckError>)
    requires ValidDeck(d)
    ensures r.Ok? <==> ValidDeck(d.(sigma := Some(sigma)))
    ensures r.Ok? ==> r.value == d.(sigma := Some(sigma))
    ensures r.Err? ==> var n := NodeCount(d.axes);
            Some(r.error)
            == FirstFault(SigmaFault(sigma.cn, n), FirstFault(SigmaFault(sigma.cd, n), SigmaFault(sigma.cm, n)))
  {
    var expected := |d.tables.cn|;
    var fault := ValidateSigmaTable(sigma.cn, expected);
    if fault.None? {
      fault := ValidateSigmaTable(sigma.cd, expected);
    }
    if fault.None? {
      fault := ValidateSigmaTable(sigma.cm, expected);
    }
    return if fault.Some? then Err(fault.value) else Ok(d.(sigma := Some(sigma)));
  }

  /** Attaches the principal damping tables; all cross-coupling tables become zero. */
  method WithDynamicDerivativeTables(d: Deck, cmQ: seq<real>, cnR: seq<real>, clP: seq<real>)
    returns (r: Result<Deck, DeckError>)
    requires ValidDeck(d)
    ensures r.Ok? <==> |cmQ| == |d.tables.cn| && |cnR| == |d.tables.cn| && |clP| == |d.tables.cn|
    ensures r.Err? ==> r.error == MalformedDeck
    ensures r.Ok? ==>
              var z := seq(|d.tables.cn|, _ => 0.0);
              ValidDeck(r.value) && r.value == d.(dynamics := Some(Derivatives(clP, z, z, z, cmQ, z, z, z, cnR)))
  {
    var expected := |d.tables.cn|;
    var zeros := seq(expected, _ => 0.0);
    if |clP| != expected || |cmQ| != expected || |cnR| != expected {
      return Err(MalformedDeck);
    }
    return Ok(d.(dynamics := Some(Derivatives(clP, zeros, zeros, zeros, cmQ, zeros, zeros, zeros, cnR))));
  }

  // ---------------------------------------------------------------- bracketing

  /** Number of leading points not above `q`. */
  function PartitionPoint(axis: Axis, q: real): (n: nat)
    ensures n <= |axis|
    ensures forall i :: 0 <= i < n ==> axis[i] <= q
    ensures n < |axis| ==> q < axis[n]
  {
    if |axis| == 0 || axis[0] > q then 0 else 1 + PartitionPoint(axis[1..], q)
  }

  function SaturatingPredecessor(n: nat): nat {
    if n == 0 then 0 else n - 1
  }

  function MinNat(a: nat, b: nat): nat {
    if a < b then a else b
  }

  /** The cell and fraction for a query on one axis. */
  function Bracket(axis: Axis, q: real, policy: Policy): (r: Result<Place, DeckError>)
    requires ValidAxis(axis)
  {
    var n := |axis|;
    if n == 1 then
      if q == axis[0] || policy == Clamp then Ok(Place(0, 0.0)) else Err(OutOfEnvelope)
    else if q < axis[0] then
      if policy == FailClosed then Err(OutOfEnvelope) else Ok(Place(0, 0.0))
    else if q > axis[n - 1] then
      if policy == FailClosed then Err(OutOfEnvelope) else Ok(Place(n - 2, 1.0))
    else
      var upper := PartitionPoint(axis, q);
      var low := MinNat(SaturatingPredecessor(upper), n - 2);
      Ok(Place(low, (q - axis[low]) / (axis[low + 1] - axis[low])))
  }

  lemma Ratio(x: real, a: real, b: real)
    requires a < b && a <= x <= b
    ensures 0.0 <= (x - a) / (b - a) <= 1.0
    ensures Blend((x - a) / (b - a), a, b) == x
    ensures x == a ==> (x - a) / (b - a) == 0.0
    ensures x == b ==> (x - a) / (b - a) == 1.0
  {
    var f := (x - a) / (b - a);
    assert f * (b - a) == x - a;
    assert Blend(f, a, b) == a + f * (b - a);
  }

  /** The cell found for an in-grid query holds it. */
  lemma CellHolds(axis: Axis, q: real) returns (low: nat)
    requires ValidAxis(axis) && |axis| > 1 && axis[0] <= q <= axis[|axis| - 1]
    ensures low + 1 < |axis| && axis[low] <= q <= axis[low + 1] && axis[low] < axis[low + 1]
    ensures Bracket(axis, q, FailClosed) == Bracket(axis, q, Clamp)
            == Ok(Place(low, (q - axis[low]) / (axis[low + 1] - axis[low])))
    ensures q == axis[low + 1] ==> low + 2 == |axis|
  {
    var upper := PartitionPoint(axis, q);
    low := MinNat(SaturatingPredecessor(upper), |axis| - 2);
    assert upper > 0;
  }

  /**
   * Bracketing: a returned place fits the axis, its fraction lies in [0, 1], and it stands for the
   * query moved to the nearest grid coordinate. Fail-closed succeeds exactly inside the grid, and
   * clamping gives the very place that the clamped query has.
   */
  lemma BracketMeaning(axis: Axis, q: real, policy: Policy)
    requires ValidAxis(axis)
    ensures var r := Bracket(axis, q, policy);
            && (r.Ok? <==> policy == Clamp || axis[0] <= q <= axis[|axis| - 1])
            && (r.Err? ==> r.error == OutOfEnvelope)
            && (r.Ok? ==> PlaceFits(axis, r.value) && 0.0 <= r.value.fraction <= 1.0
                          && Coordinate(axis, r.value) == Clamped(axis, q))
    ensures Bracket(axis, q, Clamp) == Bracket(axis, Clamped(axis, q), FailClosed)
  {
    var n := |axis|;
    if n > 1 {
      IncreasingOrder(axis, 0, n - 1);
      var low := CellHolds(axis, Clamped(axis, q));
      Ratio(Clamped(axis, q), axis[low], axis[low + 1]);
      if q < axis[0] && low > 0 {
        IncreasingOrder(axis, 0, low);
      }
      if q > axis[n - 1] && low + 1 < n - 1 {
        IncreasingOrder(axis, low + 1, n - 1);
      }
      BlendEnds(0.0, axis[0], axis[1]);
      BlendEnds(1.0, axis[n - 2], axis[n - 1]);
    } else {
      BlendEnds(0.0, axis[0], axis[0]);
    }
  }

  /** A query on grid point `k` is placed on that node. */
  lemma BracketOnNode(axis: Axis, k: nat, policy: Policy)
    requires ValidAxis(axis) && k < |axis|
    ensures var r := Bracket(axis, axis[k], policy); r.Ok? && PlaceFits(axis, r.value) && OnNode(axis, r.value, k)
  {
    var q := axis[k];
    BracketMeaning(axis, q, policy);
    if |axis| > 1 {
      if k > 0 {
        IncreasingOrder(axis, 0, k);
      }
      if k < |axis| - 1 {
        IncreasingOrder(axis, k, |axis| - 1);
      }
      var low := CellHolds(axis, q);
      Ratio(q, axis[low], axis[low + 1]);
      if k < low {
        IncreasingOrder(axis, k, low);
      } else if low + 1 < k {
        IncreasingOrder(axis, low + 1, k);
      }
    }
  }
}
