/** Baking a drag buildup into a three-axis deck: nested pushes in the deck's own storage order. */
module DeckBaking {
  import opened Wrappers
  import opened Reals
  import opened DeckInterpolation
  import opened AeroDeck
  import opened DeckLookup

  const MIN_REYNOLDS := 1000.0
  const REYNOLDS_MACH_FLOOR := 0.001
  const BETA_TOLERANCE := 0.000000000001

  datatype Grid = Grid(mach: Axis, alpha: Axis, beta: Axis, reynoldsAtMach1: real)

  datatype Flow = Flow(mach: real, reynolds: real, alphaRad: real)

  datatype Damping = Damping(cmQ: real, cnR: real, clP: real)

  /**
   * A buildup: what its geometry validation says, its references, and its correlations. The DATCOM
   * extension also has dynamic derivatives by Mach number.
   */
  datatype Buildup = Buildup(geometryFault: Option<DeckError>, referenceArea: real, referenceLength: real,
                             pi: real, coefficients: Flow -> Result<Triple<real>, DeckError>,
                             damping: Option<real -> Result<Damping, DeckError>>)

  datatype Node = Node(coefficients: Triple<real>, damping: Damping)

  function ReynoldsAt(g: Grid, mach: real): real {
    Max(g.reynoldsAtMach1 * Max(mach, REYNOLDS_MACH_FLOOR), MIN_REYNOLDS)
  }

  function DampingAt(b: Buildup, mach: real): Result<Damping, DeckError> {
    if b.damping.Some? then b.damping.value(mach) else Ok(Damping(0.0, 0.0, 0.0))
  }

  function ToRadians(pi: real, degrees: real): real {
    degrees * (pi / 180.0)
  }

  function CoefficientsAt(b: Buildup, g: Grid, i: nat, j: nat): Result<Triple<real>, DeckError>
    requires i < |g.mach| && j < |g.alpha|
  {
    b.coefficients(Flow(g.mach[i], ReynoldsAt(g, g.mach[i]), ToRadians(b.pi, g.alpha[j])))
  }

  predicate Near(beta: Axis) {
    forall k :: 0 <= k < |beta| ==> -0.000000000001 <= beta[k] <= 0.000000000001
  }

  predicate AxesIncrease(g: Grid) {
    ValidAxis(g.mach) && ValidAxis(g.alpha) && ValidAxis(g.beta)
  }

  predicate GridValid(g: Grid) {
    AxesIncrease(g) && Near(g.beta) && g.reynoldsAtMach1 > 0.0
  }

  method ValidateGrid(g: Grid) returns (fault: Option<DeckError>)
    ensures fault.None? <==> GridValid(g)
    ensures fault.Some? ==> fault.value == if AxesIncrease(g) then InvalidParameter else MalformedDeck
  {
    var mach := ValidateAxis(g.mach);
    var alpha := ValidateAxis(g.alpha);
    var beta := ValidateAxis(g.beta);
    if !mach || !alpha || !beta {
      return Some(MalformedDeck);
    }
    for k := 0 to |g.beta|
      invariant forall t :: 0 <= t < k ==> -BETA_TOLERANCE <= g.beta[t] <= BETA_TOLERANCE
    {
      if g.beta[k] > BETA_TOLERANCE || g.beta[k] < -BETA_TOLERANCE {
        return Some(InvalidParameter);
      }
    }
    return if g.reynoldsAtMach1 <= 0.0 then Some(InvalidParameter) else None;
  }

  /**
   * Evenly spaced points from `min` to `max`. The range `max == min` with several steps is accepted
   * here although its points repeat, so no deck can be baked on it.
   */
  method InclusiveGrid(min: real, max: real, steps: nat) returns (r: Result<Axis, DeckError>)
    ensures r.Ok? <==> steps > 0 && min <= max
    ensures r.Err? ==> r.error == InvalidParameter
    ensures r.Ok? ==> |r.value| == steps && r.value[0] == min && (steps > 1 ==> r.value[steps - 1] == max)
    ensures r.Ok? ==> (ValidAxis(r.value) <==> steps == 1 || min < max)
    ensures r.Ok? ==> forall k :: 1 < k < steps ==> r.value[k] == r.value[k - 1] + (r.value[1] - r.value[0])
  {
    hide Spaced, ValidAxis;
    if steps == 0 || max < min {
      return Err(InvalidParameter);
    }
    if steps == 1 {
      OnePoint(min);
      return Ok([min]);
    }
    var step := (max - min) / (steps - 1) as real;
    var out: seq<real> := [];
    for i := 0 to steps
      invariant |out| == i && forall k :: 0 <= k < i ==> out[k] == min + Spaced(step, k)
    {
      out := out + [min + Spaced(step, i)];
    }
    EvenlySpaced(out, min, step);
    SpansRange(steps, min, max, step);
    return Ok(out);
  }

  lemma OnePoint(x: real)
    ensures ValidAxis([x])
  {
  }

  lemma SpansRange(steps: nat, min: real, max: real, step: real)
    requires steps > 1 && step == (max - min) / (steps - 1) as real
    ensures min + Spaced(step, 0) == min && min + Spaced(step, steps - 1) == max
    ensures step > 0.0 <==> min < max
  {
    var denom := (steps - 1) as real;
    assert step * denom == max - min;
    if step > 0.0 {
      PositiveProduct(step, denom);
    } else {
      NonNegativeProduct(-step, denom);
    }
  }

  lemma EvenlySpaced(out: seq<real>, min: real, step: real)
    requires |out| > 1 && forall k :: 0 <= k < |out| ==> out[k] == min + Spaced(step, k)
    ensures out[1] == out[0] + step && forall k :: 0 < k < |out| ==> out[k] == out[k - 1] + step
    ensures ValidAxis(out) <==> step > 0.0
  {
    forall k | 0 < k < |out|
      ensures out[k] == out[k - 1] + step
    {
      SpacedNext(step, k - 1);
    }
    assert out[1] == out[0] + step;
  }

  // ---------------------------------------------------------------- push order

  function Repeat<T>(v: T, k: nat): (r: seq<T>)
    ensures |r| == k && forall i :: 0 <= i < k ==> r[i] == v
  {
    seq(k, _ => v)
  }

  /** Each value of the row pushed `width` times. */
  function Row<T>(row: seq<T>, width: nat): seq<T> {
    if |row| == 0 then [] else Row(row[..|row| - 1], width) + Repeat(row[|row| - 1], width)
  }

  function Table<T>(rows: seq<seq<T>>, width: nat): seq<T> {
    if |rows| == 0 then [] else Table(rows[..|rows| - 1], width) + Row(rows[|rows| - 1], width)
  }

  lemma {:induction false} RowSize<T>(row: seq<T>, width: nat)
    ensures |Row(row, width)| == Times(|row|, width)
  {
    if |row| > 0 {
      RowSize(row[..|row| - 1], width);
      TimesNext(|row| - 1, width);
    }
  }

  lemma {:induction false} TableSize<T>(rows: seq<seq<T>>, count: nat, width: nat)
    requires forall i :: 0 <= i < |rows| ==> |rows[i]| == count
    ensures |Table(rows, width)| == Times(|rows|, Times(count, width))
  {
    if |rows| > 0 {
      hide Times;
      TableSize(rows[..|rows| - 1], count, width);
      RowSize(rows[|rows| - 1], width);
      TimesNext(|rows| - 1, Times(count, width));
    } else {
      RowSize<T>([], Times(count, width));
    }
  }

  lemma {:induction false} RowBlock<T>(row: seq<T>, width: nat, j: nat)
    requires j < |row|
    ensures |Row(row, width)| == Times(|row|, width)
    ensures Block(Row(row, width), width, |row|, j) == Repeat(row[j], width)
    decreases |row|
  {
    hide Times;
    var n := |row| - 1;
    RowSize(row, width);
    RowSize(row[..n], width);
    if j < n {
      RowBlock(row[..n], width, j);
      BlockFits(width, n, j);
    }
  }

  lemma {:induction false} TableBlock<T>(rows: seq<seq<T>>, count: nat, width: nat, i: nat)
    requires i < |rows| && forall t :: 0 <= t < |rows| ==> |rows[t]| == count
    ensures |Table(rows, width)| == Times(|rows|, Times(count, width))
    ensures Block(Table(rows, width), Times(count, width), |rows|, i) == Row(rows[i], width)
    decreases |rows|
  {
    hide Times, Row;
    var n := |rows| - 1;
    TableSize(rows, count, width);
    TableSize(rows[..n], count, width);
    RowSize(rows[n], width);
    if i < n {
      TableBlock(rows[..n], count, width, i);
      BlockFits(Times(count, width), n, i);
    }
  }

  /** The pushed table holds the value of its (Mach, alpha) pair at every node, whatever the beta index. */
  lemma TableEntry<T>(rows: seq<seq<T>>, axes: seq<Axis>, i: nat, j: nat, k: nat)
    requires |axes| == 3 && |rows| == |axes[0]| && i < |axes[0]| && j < |axes[1]| && k < |axes[2]|
    requires forall t :: 0 <= t < |rows| ==> |rows[t]| == |axes[1]|
    ensures |Table(rows, |axes[2]|)| == NodeCount(axes)
    ensures Flat(axes, i, j, k) < NodeCount(axes) && Table(rows, |axes[2]|)[Flat(axes, i, j, k)] == rows[i][j]
  {
    hide Times, Block, Table, Row;
    var nj, nk := |axes[1]|, |axes[2]|;
    CountOfThree(axes);
    TableBlock(rows, nj, nk, i);
    RowBlock(rows[i], nk, j);
    BlockEntry(Row(rows[i], nk), nk, nj, j, k);
    EntryFits(j, nj, nk, k);
    BlockEntry(Table(rows, nk), Times(nj, nk), |axes[0]|, i, Times(j, nk) + k);
    SliceIndex(i, nj, nk, k, j);
  }

  // ---------------------------------------------------------------- the tables as projections

  /** The six vectors that the loops push onto. */
  datatype Tables = Tables(cn: seq<real>, cd: seq<real>, cm: seq<real>, cmQ: seq<real>, cnR: seq<real>, clP: seq<real>)

  function Push(t: Tables, n: Node): Tables {
    Tables(t.cn + [n.coefficients.cn], t.cd + [n.coefficients.cd], t.cm + [n.coefficients.cm],
           t.cmQ + [n.damping.cmQ], t.cnR + [n.damping.cnR], t.clP + [n.damping.clP])
  }

  function TablesOf(nodes: seq<Node>): Tables {
    if |nodes| == 0 then Tables([], [], [], [], [], []) else Push(TablesOf(nodes[..|nodes| - 1]), nodes[|nodes| - 1])
  }

  function NodeIn(t: Tables, k: nat): Node
    requires k < |t.cn| == |t.cd| == |t.cm| == |t.cmQ| == |t.cnR| == |t.clP|
  {
    Node(Triple(t.cn[k], t.cd[k], t.cm[k]), Damping(t.cmQ[k], t.cnR[k], t.clP[k]))
  }

  lemma {:induction false} TablesHold(nodes: seq<Node>)
    ensures var t := TablesOf(nodes);
            && |t.cn| == |t.cd| == |t.cm| == |t.cmQ| == |t.cnR| == |t.clP| == |nodes|
            && forall k :: 0 <= k < |nodes| ==> NodeIn(t, k) == nodes[k]
  {
    if |nodes| > 0 {
      TablesHold(nodes[..|nodes| - 1]);
    }
  }

  lemma TablesPush(nodes: seq<Node>, node: Node)
    ensures TablesOf(nodes + [node]) == Push(TablesOf(nodes), node)
  {
    assert (nodes + [node])[..|nodes|] == nodes;
  }

  // ---------------------------------------------------------------- baking

  /** The first correlation to fail in loop order: derivatives of a Mach point, then its coefficients by alpha. */
  ghost predicate FirstFailure(b: Buildup, g: Grid, error: DeckError) {
    exists i: nat :: i < |g.mach| && PointFails(b, g, i, error) && forall p: nat :: p < i ==> PointDefined(b, g, p)
  }

  predicate PointDefined(b: Buildup, g: Grid, i: nat)
    requires i < |g.mach|
  {
    DampingAt(b, g.mach[i]).Ok? && forall j :: 0 <= j < |g.alpha| ==> CoefficientsAt(b, g, i, j).Ok?
  }

  /** Every grid point has coefficients, and derivatives when the buildup has them. */
  predicate AllDefined(b: Buildup, g: Grid) {
    forall i :: 0 <= i < |g.mach| ==> PointDefined(b, g, i)
  }

  ghost predicate PointFails(b: Buildup, g: Grid, i: nat, error: DeckError)
    requires i < |g.mach|
  {
    DampingAt(b, g.mach[i]) == Err(error)
    || (DampingAt(b, g.mach[i]).Ok? && exists j: nat :: j < |g.alpha| && CoefficientsAt(b, g, i, j) == Err(error)
                                                  && forall p: nat :: p < j ==> CoefficientsAt(b, g, i, p).Ok?)
  }

  /** The rows of node records gathered so far: one per Mach point, one record per alpha. */
  ghost predicate RowsOf(rows: seq<seq<Node>>, b: Buildup, g: Grid)
    requires |rows| <= |g.mach|
  {
    forall i :: 0 <= i < |rows| ==> |rows[i]| == |g.alpha| && RowOf(rows[i], b, g, i)
  }

  ghost predicate RowOf(row: seq<Node>, b: Buildup, g: Grid, i: nat)
    requires i < |g.mach| && |row| <= |g.alpha|
  {
    forall j :: 0 <= j < |row| ==>
      CoefficientsAt(b, g, i, j) == Ok(row[j].coefficients) && DampingAt(b, g.mach[i]) == Ok(row[j].damping)
  }

  /** The deck holds the buildup's values at every node of its grid. */
  ghost predicate Baked(d: Deck, b: Buildup, g: Grid) {
    && ValidDeck(d) && d.axes == [g.mach, g.alpha, g.beta] && d.sigma.None? && d.extrapolation == FailClosed
    && d.referenceArea == b.referenceArea && d.referenceLength == b.referenceLength
    && (d.dynamics.Some? <==> b.damping.Some?)
    && forall i: nat, j: nat, k: nat :: i < |g.mach| && j < |g.alpha| && k < |g.beta| ==> NodeBaked(d, b, g, i, j, k)
  }

  ghost predicate NodeBaked(d: Deck, b: Buildup, g: Grid, i: nat, j: nat, k: nat)
    requires ValidDeck(d) && d.axes == [g.mach, g.alpha, g.beta]
    requires i < |g.mach| && j < |g.alpha| && k < |g.beta|
  {
    var at := [i, j, k];
    && CoefficientsAt(b, g, i, j)
       == Ok(Triple(EntryAt(d.tables.cn, d.axes, at), EntryAt(d.tables.cd, d.axes, at),
                    EntryAt(d.tables.cm, d.axes, at)))
    && (d.dynamics.Some? ==>
          var t := d.dynamics.value;
          && DampingAt(b, g.mach[i])
             == Ok(Damping(EntryAt(t.cmQ, d.axes, at), EntryAt(t.cnR, d.axes, at), EntryAt(t.clP, d.axes, at)))
          && t.clQ == t.clR == t.cmP == t.cmR == t.cnP == t.cnQ == seq(|d.tables.cn|, _ => 0.0))
  }

  lemma NoTables(width: nat)
    ensures TablesOf(Table([], width)) == Tables([], [], [], [], [], [])
  {
  }

  lemma NoRow(before: seq<Node>, width: nat)
    ensures before + Row([], width) == before
  {
  }

  lemma RepeatPush(start: seq<Node>, node: Node, k: nat)
    ensures TablesOf(start + Repeat(node, k + 1)) == Push(TablesOf(start + Repeat(node, k)), node)
  {
    hide TablesOf, Push;
    TablesPush(start + Repeat(node, k), node);
    assert start + Repeat(node, k + 1) == start + Repeat(node, k) + [node];
  }

  lemma RowPush(before: seq<Node>, row: seq<Node>, node: Node, width: nat) returns (next: seq<Node>)
    ensures next == row + [node] && before + Row(next, width) == before + Row(row, width) + Repeat(node, width)
  {
    next := row + [node];
    assert next[..|row|] == row;
    assert before + (Row(row, width) + Repeat(node, width)) == before + Row(row, width) + Repeat(node, width);
  }

  lemma TablePush(rows: seq<seq<Node>>, row: seq<Node>, width: nat) returns (next: seq<seq<Node>>)
    ensures next == rows + [row] && Table(next, width) == Table(rows, width) + Row(row, width)
  {
    next := rows + [row];
    assert next[..|rows|] == rows;
  }

  /** The nested push loops: the derivatives by Mach number, the coefficients at every node. */
  method PushTables(b: Buildup, g: Grid) returns (fault: Option<DeckError>, t: Tables, ghost rows: seq<seq<Node>>)
    requires |g.beta| > 0
    ensures fault.None? <==> AllDefined(b, g)
    ensures fault.Some? ==> FirstFailure(b, g, fault.value)
    ensures fault.None? ==> |rows| == |g.mach| && RowsOf(rows, b, g) && t == TablesOf(Table(rows, |g.beta|))
  {
    hide TablesOf, Push, Row, Table;
    t := Tables([], [], [], [], [], []);
    rows := [];
    NoTables(|g.beta|);
    for i := 0 to |g.mach|
      invariant |rows| == i && RowsOf(rows, b, g) && t == TablesOf(Table(rows, |g.beta|))
      invariant forall p: nat :: p < i ==> PointDefined(b, g, p)
    {
      var damping := DampingAt(b, g.mach[i]);
      if damping.Err? {
        assert !PointDefined(b, g, i) && PointFails(b, g, i, damping.error);
        return Some(damping.error), t, rows;
      }
      ghost var row: seq<Node> := [];
      ghost var before := Table(rows, |g.beta|);
      NoRow(before, |g.beta|);
      for j := 0 to |g.alpha|
        invariant |row| == j && RowOf(row, b, g, i) && t == TablesOf(before + Row(row, |g.beta|))
        invariant forall p: nat :: p < j ==> CoefficientsAt(b, g, i, p).Ok?
      {
        var c := CoefficientsAt(b, g, i, j);
        ghost var start := before + Row(row, |g.beta|);
        assert start + [] == start;
        for k := 0 to |g.beta|
          invariant c == CoefficientsAt(b, g, i, j) && (k > 0 ==> c.Ok?)
          invariant t == TablesOf(start + if c.Ok? then Repeat(Node(c.value, damping.value), k) else [])
        {
          c := CoefficientsAt(b, g, i, j);
          if c.Err? {
            assert !PointDefined(b, g, i) && PointFails(b, g, i, c.error);
            return Some(c.error), t, rows;
          }
          RepeatPush(start, Node(c.value, damping.value), k);
          t := Push(t, Node(c.value, damping.value));
        }
        row := RowPush(before, row, Node(c.value, damping.value), |g.beta|);
      }
      rows := TablePush(rows, row, |g.beta|);
    }
    fault := None;
  }

  /** Node records projected into the deck's tables, read back at a node. */
  lemma NodeStored(rows: seq<seq<Node>>, axes: seq<Axis>, i: nat, j: nat, k: nat)
    requires |axes| == 3 && |rows| == |axes[0]| && i < |axes[0]| && j < |axes[1]| && k < |axes[2]|
    requires forall t :: 0 <= t < |rows| ==> |rows[t]| == |axes[1]|
    ensures var t, n, at := TablesOf(Table(rows, |axes[2]|)), NodeCount(axes), [i, j, k];
            && |t.cn| == |t.cd| == |t.cm| == |t.cmQ| == |t.cnR| == |t.clP| == n
            && rows[i][j] == Node(Triple(EntryAt(t.cn, axes, at), EntryAt(t.cd, axes, at), EntryAt(t.cm, axes, at)),
                                  Damping(EntryAt(t.cmQ, axes, at), EntryAt(t.cnR, axes, at), EntryAt(t.clP, axes, at)))
  {
    hide Times, Table, TablesOf, EntryAt, NodeCount, Flat;
    var t := TablesOf(Table(rows, |axes[2]|));
    TableEntry(rows, axes, i, j, k);
    TablesHold(Table(rows, |axes[2]|));
    assert NodeIn(t, Flat(axes, i, j, k)) == rows[i][j];
    EntryOfThree(t.cn, axes, i, j, k);
    EntryOfThree(t.cd, axes, i, j, k);
    EntryOfThree(t.cm, axes, i, j, k);
    EntryOfThree(t.cmQ, axes, i, j, k);
    EntryOfThree(t.cnR, axes, i, j, k);
    EntryOfThree(t.clP, axes, i, j, k);
  }

  lemma TablesSized(rows: seq<seq<Node>>, axes: seq<Axis>)
    requires |axes| == 3 && |rows| == |axes[0]| && forall t :: 0 <= t < |rows| ==> |rows[t]| == |axes[1]|
    ensures var t, n := TablesOf(Table(rows, |axes[2]|)), NodeCount(axes);
            |t.cn| == |t.cd| == |t.cm| == |t.cmQ| == |t.cnR| == |t.clP| == n
  {
    hide Times, Table, TablesOf, NodeCount;
    TableSize(rows, |axes[1]|, |axes[2]|);
    TablesHold(Table(rows, |axes[2]|));
    CountOfThree(axes);
  }

  function AxisNames(): seq<string> {
    ["mach", "alpha", "beta"]
  }

  /**
   * Baking succeeds exactly on valid geometry, grid and references with every node defined, and then
   * the deck holds the buildup's values at every node; otherwise the first fault is reported.
   */
  method BakeDeck(b: Buildup, g: Grid) returns (r: Result<Deck, DeckError>)
    ensures r.Ok? <==> b.geometryFault.None? && GridValid(g) && AllDefined(b, g)
                       && b.referenceArea > 0.0 && b.referenceLength > 0.0
    ensures r.Ok? ==> Baked(r.value, b, g)
    ensures r.Err? ==>
              if b.geometryFault.Some? then r.error == b.geometryFault.value
              else if !GridValid(g) then r.error == if AxesIncrease(g) then InvalidParameter else MalformedDeck
              else if !AllDefined(b, g) then FirstFailure(b, g, r.error)
              else r.error == InvalidParameter
  {
    hide AllDefined, FirstFailure, Table, TablesOf, NodeCount, EntryAt, CoefficientsAt, DampingAt;
    if b.geometryFault.Some? {
      return Err(b.geometryFault.value);
    }
    var fault := ValidateGrid(g);
    if fault.Some? {
      return Err(fault.value);
    }
    var t: Tables;
    ghost var rows: seq<seq<Node>>;
    fault, t, rows := PushTables(b, g);
    if fault.Some? {
      return Err(fault.value);
    }
    var axes := [g.mach, g.alpha, g.beta];
    TablesSized(rows, axes);
    r := NewND(AxisNames(), axes, Triple(t.cn, t.cd, t.cm), b.referenceArea, b.referenceLength);
    if r.Ok? && b.damping.Some? {
      r := WithDynamicDerivativeTables(r.value, t.cmQ, t.cnR, t.clP);
    }
    if r.Ok? {
      forall i: nat, j: nat, k: nat | i < |g.mach| && j < |g.alpha| && k < |g.beta|
        ensures NodeBaked(r.value, b, g, i, j, k)
      {
        NodeStored(rows, axes, i, j, k);
      }
    }
  }

  /** Bake, then look up: at every grid node the deck answers with the coefficients computed there. */
  lemma BakedLookup(d: Deck, b: Buildup, g: Grid, q: Query, i: nat, j: nat, k: nat)
    requires Baked(d, b, g) && i < |g.mach| && j < |g.alpha| && k < |g.beta|
    requires q.mach == g.mach[i] && q.alpha == g.alpha[j] && q.beta == g.beta[k]
    ensures Answerable(d, q)
    ensures CoefficientsAt(b, g, i, j)
            == Ok(Triple(Value(d, d.tables.cn, q), Value(d, d.tables.cd, q), Value(d, d.tables.cm, q)))
    ensures d.dynamics.Some? ==>
              var t := d.dynamics.value;
              && DampingAt(b, g.mach[i]) == Ok(Damping(Value(d, t.cmQ, q), Value(d, t.cnR, q), Value(d, t.clP, q)))
              && Value(d, t.clQ, q) == Value(d, t.clR, q) == Value(d, t.cmP, q) == 0.0
              && Value(d, t.cmR, q) == Value(d, t.cnP, q) == Value(d, t.cnQ, q) == 0.0
  {
    hide EntryAt, CoefficientsAt, DampingAt, Answerable, Value, NodeCount;
    var at := [i, j, k];
    assert NodeBaked(d, b, g, i, j, k);
    AtGridNode(d, b, g, q, i, j, k);
    NodeLookup(d, d.tables.cn, q, at);
    NodeLookup(d, d.tables.cd, q, at);
    NodeLookup(d, d.tables.cm, q, at);
    if d.dynamics.Some? {
      var t := d.dynamics.value;
      NodeLookup(d, t.cmQ, q, at);
      NodeLookup(d, t.cnR, q, at);
      NodeLookup(d, t.clP, q, at);
      NodeLookup(d, t.clQ, q, at);
      ZeroEntry(t.clQ, d.axes, at);
    }
  }

  lemma AtGridNode(d: Deck, b: Buildup, g: Grid, q: Query, i: nat, j: nat, k: nat)
    requires Baked(d, b, g) && i < |g.mach| && j < |g.alpha| && k < |g.beta|
    requires q.mach == g.mach[i] && q.alpha == g.alpha[j] && q.beta == g.beta[k]
    ensures AtNode(d, q, [i, j, k])
  {
  }

  lemma {:induction false} ZeroEntry(table: seq<real>, axes: seq<Axis>, at: seq<nat>)
    requires |table| == NodeCount(axes) && |at| == |axes| && forall k :: 0 <= k < |axes| ==> at[k] < |axes[k]|
    requires forall t :: 0 <= t < |table| ==> table[t] == 0.0
    ensures EntryAt(table, axes, at) == 0.0
    decreases |axes|
  {
    hide Times;
    if |axes| > 0 {
      BlockFits(NodeCount(axes[1..]), |axes[0]|, at[0]);
      ZeroEntry(Block(table, NodeCount(axes[1..]), |axes[0]|, at[0]), axes[1..], at[1..]);
    }
  }

  // ---------------------------------------------------------------- the flow at a node

  /** The largest of three numbers. */
  predicate LargestOf(x: real, a: real, b: real, c: real) {
    x >= a && x >= b && x >= c && (x == a || x == b || x == c)
  }

  lemma ReynoldsMeaning(g: Grid, mach: real, reynolds: real)
    requires g.reynoldsAtMach1 > 0.0
    ensures reynolds == ReynoldsAt(g, mach) <==>
            LargestOf(reynolds, MIN_REYNOLDS, g.reynoldsAtMach1 * mach, g.reynoldsAtMach1 * REYNOLDS_MACH_FLOOR)
  {
    var r := g.reynoldsAtMach1;
    if mach > REYNOLDS_MACH_FLOOR {
      PositiveProduct(r, mach - REYNOLDS_MACH_FLOOR);
    } else {
      NonNegativeProduct(r, REYNOLDS_MACH_FLOOR - mach);
    }
  }

  lemma RadiansMeaning(pi: real, degrees: real, radians: real)
    ensures radians == ToRadians(pi, degrees) <==> 180.0 * radians == pi * degrees
  {
  }

  /**
   * What a baked deck holds at a node are the coefficients at that node's Mach number, at the Reynolds number
   * proportional to it but at no less than either floor, and at its angle of attack in radians.
   */
  lemma BakedFlow(d: Deck, b: Buildup, g: Grid, i: nat, j: nat, k: nat, flow: Flow)
    requires Baked(d, b, g) && GridValid(g) && i < |g.mach| && j < |g.alpha| && k < |g.beta|
    requires flow.mach == g.mach[i] && 180.0 * flow.alphaRad == b.pi * g.alpha[j]
    requires LargestOf(flow.reynolds, 1000.0, g.reynoldsAtMach1 * g.mach[i], g.reynoldsAtMach1 * 0.001)
    ensures var at := [i, j, k];
            b.coefficients(flow) == Ok(Triple(EntryAt(d.tables.cn, d.axes, at), EntryAt(d.tables.cd, d.axes, at),
                                              EntryAt(d.tables.cm, d.axes, at)))
  {
    hide EntryAt, ReynoldsAt, ToRadians, ValidDeck;
    ReynoldsMeaning(g, g.mach[i], flow.reynolds);
    RadiansMeaning(b.pi, g.alpha[j], flow.alphaRad);
    assert flow == Flow(g.mach[i], ReynoldsAt(g, g.mach[i]), ToRadians(b.pi, g.alpha[j]));
    assert NodeBaked(d, b, g, i, j, k);
  }
}
