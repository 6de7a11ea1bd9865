/** The flat deck lookup: strides, the corner stencil addressed by bits, and the in-place reduction. */
module DeckStencil {
  import opened DeckInterpolation

  // ---------------------------------------------------------------- strides

  method ComputeStrides(axes: seq<Axis>) returns (strides: seq<nat>)
    requires |axes| > 0
    ensures |strides| == |axes|
    ensures forall k :: 0 <= k < |axes| ==> strides[k] == NodeCount(axes[k + 1..])
  {
    var n := |axes|;
    strides := seq(n, _ => 1);
    var k := n - 1;
    assert axes[n..] == [];
    while k > 0
      invariant 0 <= k < n && |strides| == n
      invariant forall j :: k <= j < n ==> strides[j] == NodeCount(axes[j + 1..])
    {
      k := k - 1;
      assert axes[k + 1..][0] == axes[k + 1] && axes[k + 1..][1..] == axes[k + 2..];
      strides := strides[k := Times(|axes[k + 1]|, strides[k + 1])];
    }
  }

  // ---------------------------------------------------------------- corners

  function Pow2(n: nat): (r: nat)
    ensures r > 0
  {
    if n == 0 then 1 else 2 * Pow2(n - 1)
  }

  /** The lower or upper index of a cell. */
  function Side(axis: Axis, p: Place, bit: nat): nat {
    if |axis| == 1 then p.index else p.index + bit
  }

  function Quotient(c: nat, m: nat): nat
    requires m > 0
  {
    c / m
  }

  function ShiftRight(c: nat, k: nat): nat {
    Quotient(c, Pow2(k))
  }

  function LowBits(c: nat, k: nat): (r: nat)
    ensures r < Pow2(k)
  {
    c % Pow2(k)
  }

  /** The weight of bit `k`, or nothing when the bit is clear. */
  function Weight(bit: nat, k: nat): nat {
    if bit == 0 then 0 else Pow2(k)
  }

  /** Table index of corner `c`, whose most significant bit selects the side of the first axis. */
  function CornerIndex(axes: seq<Axis>, places: seq<Place>, c: nat): nat
    requires |places| == |axes|
    decreases |axes|
  {
    if |axes| == 0 then 0
    else
      var m := |axes| - 1;
      Times(Side(axes[0], places[0], ShiftRight(c, m)), NodeCount(axes[1..]))
      + CornerIndex(axes[1..], places[1..], LowBits(c, m))
  }

  lemma QuotientOf(c: nat, m: nat, q: nat, r: nat)
    requires r < m && c == Times(q, m) + r
    ensures c / m == q && c % m == r
  {
    var d := c / m;
    assert c == Times(d, m) + c % m;
    hide Times;
    if d > q {
      TimesNext(q, m);
      TimesGrows(q + 1, d, m);
    } else if d < q {
      TimesNext(d, m);
      TimesGrows(d + 1, q, m);
    }
  }

  lemma Divided(c: nat, m: nat)
    requires m > 0
    ensures c == Times(c / m, m) + c % m
  {
  }

  lemma TimesTwice(q: nat, s: nat, m: nat)
    requires s < 2
    ensures Times(2 * q + s, m) == Times(q, 2 * m) + if s == 0 then 0 else m
  {
  }

  /** Reading one bit of `c` is shifting what is left below the bit above it. */
  lemma BitOf(c: nat, k: nat)
    ensures ShiftRight(LowBits(c, k + 1), k) == ShiftRight(c, k) % 2
    ensures LowBits(LowBits(c, k + 1), k) == LowBits(c, k)
  {
    var m := Pow2(k);
    var q, s, r := ShiftRight(c, k) / 2, ShiftRight(c, k) % 2, LowBits(c, k);
    Divided(c, m);
    TimesTwice(q, s, m);
    QuotientOf(c, 2 * m, q, Weight(s, k) + r);
    TopBit(s, r, k);
  }

  lemma TopBit(bit: nat, c: nat, k: nat)
    requires bit < 2 && c < Pow2(k)
    ensures ShiftRight(Weight(bit, k) + c, k) == bit && LowBits(Weight(bit, k) + c, k) == c
  {
    TimesOne(Pow2(k));
    QuotientOf(Weight(bit, k) + c, Pow2(k), bit, c);
  }

  method CollectCornerIndices(axes: seq<Axis>, places: seq<Place>, strides: seq<nat>) returns (out: seq<nat>)
    requires |places| == |strides| == |axes|
    requires forall k :: 0 <= k < |axes| ==> strides[k] == NodeCount(axes[k + 1..])
    ensures |out| == Pow2(|axes|)
    ensures forall c :: 0 <= c < |out| ==> out[c] == CornerIndex(axes, places, c)
  {
    hide Times, NodeCount, CornerIndex, ShiftRight, LowBits, Pow2;
    var n := |axes|;
    var count := Pow2(n);
    out := [];
    for corner := 0 to count
      invariant |out| == corner
      invariant forall c :: 0 <= c < corner ==> out[c] == CornerIndex(axes, places, c)
    {
      var idx := 0;
      SmallLow(corner, n);
      assert axes[0..] == axes && places[0..] == places;
      for k := 0 to n
        invariant idx + CornerIndex(axes[k..], places[k..], LowBits(corner, n - k)) == CornerIndex(axes, places, corner)
      {
        var bit := ShiftRight(corner, n - 1 - k) % 2;
        var next := if |axes[k]| == 1 then places[k].index else places[k].index + bit;
        CornerStep(axes, places, k, corner);
        idx := idx + Times(next, strides[k]);
      }
      NoCorner(axes[n..], places[n..], LowBits(corner, 0));
      out := out + [idx];
    }
  }

  lemma NoCorner(axes: seq<Axis>, places: seq<Place>, c: nat)
    requires |axes| == |places| == 0
    ensures CornerIndex(axes, places, c) == 0
  {
  }

  lemma SmallLow(c: nat, k: nat)
    requires c < Pow2(k)
    ensures LowBits(c, k) == c
  {
    TopBit(0, c, k);
  }

  lemma CornerStep(axes: seq<Axis>, places: seq<Place>, k: nat, c: nat)
    requires |places| == |axes| && k < |axes|
    ensures var n := |axes|;
            CornerIndex(axes[k..], places[k..], LowBits(c, n - k))
            == Times(Side(axes[k], places[k], ShiftRight(c, n - 1 - k) % 2), NodeCount(axes[k + 1..]))
             + CornerIndex(axes[k + 1..], places[k + 1..], LowBits(c, n - k - 1))
  {
    hide Times, NodeCount, ShiftRight, LowBits, Pow2;
    BitOf(c, |axes| - k - 1);
    assert axes[k..][0] == axes[k] && axes[k..][1..] == axes[k + 1..];
    assert places[k..][0] == places[k] && places[k..][1..] == places[k + 1..];
  }

  // ---------------------------------------------------------------- the in-place reduction

  /** Blending neighbouring pairs: one axis collapsed. */
  function Paired(v: seq<real>, f: real): (r: seq<real>)
    ensures |r| == |v| / 2
    ensures forall i :: 0 <= i < |r| ==> r[i] == Blend(f, v[2 * i], v[2 * i + 1])
  {
    seq(|v| / 2, i requires 0 <= i < |v| / 2 => Blend(f, v[2 * i], v[2 * i + 1]))
  }

  /** Innermost axis first. */
  function FoldInner(v: seq<real>, fractions: seq<real>): real
    requires |v| == Pow2(|fractions|)
    decreases |fractions|
  {
    if |fractions| == 0 then v[0]
    else FoldInner(Paired(v, fractions[|fractions| - 1]), fractions[..|fractions| - 1])
  }

  /** Outermost axis first. */
  function FoldOuter(v: seq<real>, fractions: seq<real>): real
    requires |v| == Pow2(|fractions|)
    decreases |fractions|
  {
    if |fractions| == 0 then v[0]
    else
      var half := Pow2(|fractions| - 1);
      Blend(fractions[0], FoldOuter(v[..half], fractions[1..]), FoldOuter(v[half..], fractions[1..]))
  }

  /** Collapsing the last axis first does not change the outermost-first value. */
  lemma PairedHalves(v: seq<real>, f: real, quarter: nat)
    requires |v| == 4 * quarter
    ensures Paired(v, f)[..quarter] == Paired(v[..2 * quarter], f)
    ensures Paired(v, f)[quarter..] == Paired(v[2 * quarter..], f)
  {
    hide Blend, Paired;
    var p, l, r := Paired(v, f), Paired(v[..2 * quarter], f), Paired(v[2 * quarter..], f);
    forall i | 0 <= i < quarter
      ensures p[i] == l[i] && p[quarter + i] == r[i]
    {
      assert p[quarter + i] == Blend(f, v[2 * (quarter + i)], v[2 * (quarter + i) + 1]);
    }
  }

  lemma {:induction false} PairedOuter(v: seq<real>, fractions: seq<real>)
    requires |v| == Pow2(|fractions|) && |fractions| > 0
    ensures FoldOuter(Paired(v, fractions[|fractions| - 1]), fractions[..|fractions| - 1]) == FoldOuter(v, fractions)
    decreases |fractions|
  {
    hide Blend, Paired;
    var n := |fractions|;
    var f, init := fractions[n - 1], fractions[..n - 1];
    var half := Pow2(n - 1);
    if n > 1 {
      var quarter := Pow2(n - 2);
      var tail := fractions[1..];
      assert tail[n - 2] == f && tail[..n - 2] == init[1..];
      PairedOuter(v[..half], tail);
      PairedOuter(v[half..], tail);
      PairedHalves(v, f, quarter);
    } else {
      assert v[..half][0] == v[0] && v[half..][0] == v[1];
      assert Paired(v, f)[0] == Blend(f, v[2 * 0], v[2 * 0 + 1]);
    }
  }

  lemma {:induction false} FoldsAgree(v: seq<real>, fractions: seq<real>)
    requires |v| == Pow2(|fractions|)
    ensures FoldInner(v, fractions) == FoldOuter(v, fractions)
    decreases |fractions|
  {
    hide Blend, Paired;
    if |fractions| > 0 {
      var n := |fractions|;
      FoldsAgree(Paired(v, fractions[n - 1]), fractions[..n - 1]);
      PairedOuter(v, fractions);
    }
  }

  function Gather(table: seq<real>, at: seq<nat>): (r: seq<real>)
    requires forall i :: 0 <= i < |at| ==> at[i] < |table|
    ensures |r| == |at| && forall i :: 0 <= i < |at| ==> r[i] == table[at[i]]
  {
    seq(|at|, i requires 0 <= i < |at| => table[at[i]])
  }

  lemma FoldStep(v: seq<real>, fractions: seq<real>, k: nat)
    requires k < |fractions| && |v| == Pow2(k + 1)
    ensures FoldInner(v, fractions[..k + 1]) == FoldInner(Paired(v, fractions[k]), fractions[..k])
  {
    hide Blend, Paired;
    assert fractions[..k + 1][..k] == fractions[..k];
  }

  /**
   * Overwrites `buf[i]` with the blend of `buf[2 i]` and `buf[2 i + 1]`, then drops the upper half,
   * once per axis from the last to the first.
   */
  method MultilinearReduce(table: seq<real>, corners: seq<nat>, fractions: seq<real>) returns (value: real)
    requires |corners| == Pow2(|fractions|) && forall i :: 0 <= i < |corners| ==> corners[i] < |table|
    ensures value == FoldInner(Gather(table, corners), fractions)
  {
    hide Blend, Paired, FoldInner;
    var n := |fractions|;
    var buf := new real[|corners|](i requires 0 <= i < |corners| => table[corners[i]]);
    assert buf[..] == Gather(table, corners);
    var live := |corners|;
    var k := n;
    assert buf[..live] == buf[..] && fractions[..k] == fractions;
    while k > 0
      invariant 0 <= k <= n && live == Pow2(k) <= buf.Length
      invariant FoldInner(buf[..live], fractions[..k]) == FoldInner(Gather(table, corners), fractions)
    {
      k := k - 1;
      FoldStep(buf[..live], fractions, k);
      CollapseAxis(buf, live, fractions[k]);
      live := live / 2;
    }
    value := buf[0];
    SingleFold(buf[..live], fractions[..0]);
  }

  lemma SingleFold(v: seq<real>, fractions: seq<real>)
    requires |v| == 1 && |fractions| == 0
    ensures FoldInner(v, fractions) == v[0]
  {
  }

  /** The inner loop: one axis collapsed within the first `live` entries of the buffer. */
  method CollapseAxis(buf: array<real>, live: nat, f: real)
    requires live <= buf.Length
    modifies buf
    ensures buf[..live / 2] == Paired(old(buf[..live]), f)
  {
    hide Blend;
    ghost var was := buf[..live];
    ghost var target := Paired(was, f);
    for i := 0 to live / 2
      invariant buf[..i] == target[..i]
      invariant buf[2 * i..live] == was[2 * i..]
    {
      var lo := buf[2 * i];
      var hi := buf[2 * i + 1];
      assert lo == buf[2 * i..live][0] && hi == buf[2 * i..live][1];
      ghost var rest := buf[2 * i..live];
      buf[i] := Blend(f, lo, hi);
      assert buf[i] == target[i];
      assert buf[2 * i + 2..live] == rest[2..];
    }
    assert buf[..live / 2] == target[..live / 2] == target;
  }

  // ---------------------------------------------------------------- refinement

  function Fractions(places: seq<Place>): (r: seq<real>)
    ensures |r| == |places| && forall k :: 0 <= k < |r| ==> r[k] == places[k].fraction
  {
    seq(|places|, k requires 0 <= k < |places| => places[k].fraction)
  }

  /** All corners of the stencil lie inside the table. */
  lemma {:induction false} CornerInRange(axes: seq<Axis>, places: seq<Place>, c: nat)
    requires PlacesFit(axes, places) && c < Pow2(|axes|)
    ensures CornerIndex(axes, places, c) < NodeCount(axes)
    decreases |axes|
  {
    hide Times, ShiftRight, LowBits;
    if |axes| > 0 {
      var m, rest := |axes| - 1, NodeCount(axes[1..]);
      CornerInRange(axes[1..], places[1..], LowBits(c, m));
      FirstBit(c, m);
      EntryFits(Side(axes[0], places[0], ShiftRight(c, m)), |axes[0]|, rest,
                CornerIndex(axes[1..], places[1..], LowBits(c, m)));
    }
  }

  lemma FirstBit(c: nat, k: nat)
    requires c < Pow2(k + 1)
    ensures ShiftRight(c, k) < 2
  {
    hide ShiftRight, LowBits, Times;
    if c < Pow2(k) {
      TopBit(0, c, k);
    } else {
      TopBit(1, c - Pow2(k), k);
    }
  }

  /** The table values at the corners, in corner order. */
  ghost function CornerValues(table: seq<real>, axes: seq<Axis>, places: seq<Place>): (r: seq<real>)
    requires PlacesFit(axes, places) && |table| == NodeCount(axes)
    ensures |r| == Pow2(|axes|)
  {
    seq(Pow2(|axes|), c requires 0 <= c < Pow2(|axes|) =>
      CornerInRange(axes, places, c); table[CornerIndex(axes, places, c)])
  }

  /** Half of the corner values are those of the block on one side of the first axis. */
  lemma CornerHalf(table: seq<real>, axes: seq<Axis>, places: seq<Place>, bit: nat)
    requires PlacesFit(axes, places) && |table| == NodeCount(axes) && |axes| > 0 && bit < 2
    ensures var m := |axes| - 1;
            Side(axes[0], places[0], bit) < |axes[0]|
            && CornerValues(table, axes, places)[Weight(bit, m)..Weight(bit, m) + Pow2(m)]
            == CornerValues(Block(table, NodeCount(axes[1..]), |axes[0]|, Side(axes[0], places[0], bit)),
                            axes[1..], places[1..])
  {
    hide Times, CornerValues, Block;
    var m, rest := |axes| - 1, NodeCount(axes[1..]);
    var side := Side(axes[0], places[0], bit);
    var block := Block(table, rest, |axes[0]|, side);
    var l := CornerValues(table, axes, places)[Weight(bit, m)..Weight(bit, m) + Pow2(m)];
    var r := CornerValues(block, axes[1..], places[1..]);
    forall c | 0 <= c < Pow2(m)
      ensures l[c] == r[c]
    {
      CornerHalfAt(table, axes, places, bit, c);
    }
    assert l == r;
  }

  lemma CornerHalfAt(table: seq<real>, axes: seq<Axis>, places: seq<Place>, bit: nat, c: nat)
    requires PlacesFit(axes, places) && |table| == NodeCount(axes) && |axes| > 0 && bit < 2
    requires c < Pow2(|axes| - 1)
    ensures Side(axes[0], places[0], bit) < |axes[0]|
    ensures Weight(bit, |axes| - 1) + c < Pow2(|axes|)
    ensures CornerValues(table, axes, places)[Weight(bit, |axes| - 1) + c]
            == CornerValues(Block(table, NodeCount(axes[1..]), |axes[0]|, Side(axes[0], places[0], bit)),
                            axes[1..], places[1..])[c]
  {
    hide Pow2, NodeCount, Times, CornerIndex;
    var m, rest := |axes| - 1, NodeCount(axes[1..]);
    var side := Side(axes[0], places[0], bit);
    HalfCorner(axes, places, bit, c);
    CornerInRange(axes, places, Weight(bit, m) + c);
    CornerInRange(axes[1..], places[1..], c);
    BlockFits(rest, |axes[0]|, side);
  }

  lemma HalfCorner(axes: seq<Axis>, places: seq<Place>, bit: nat, c: nat)
    requires PlacesFit(axes, places) && |axes| > 0 && bit < 2 && c < Pow2(|axes| - 1)
    ensures Side(axes[0], places[0], bit) < |axes[0]| && PlacesFit(axes[1..], places[1..])
    ensures Weight(bit, |axes| - 1) + c < Pow2(|axes|)
    ensures CornerIndex(axes, places, Weight(bit, |axes| - 1) + c)
            == Times(Side(axes[0], places[0], bit), NodeCount(axes[1..])) + CornerIndex(axes[1..], places[1..], c)
    ensures NodeCount(axes) == Times(|axes[0]|, NodeCount(axes[1..]))
  {
    hide Times, ShiftRight, LowBits;
    TopBit(bit, c, |axes| - 1);
  }

  /** The outermost-first fold of the corner values is the block interpolant. */
  lemma {:induction false} FoldIsInterpolation(table: seq<real>, axes: seq<Axis>, places: seq<Place>)
    requires PlacesFit(axes, places) && |table| == NodeCount(axes)
    ensures FoldOuter(CornerValues(table, axes, places), Fractions(places)) == Interpolate(table, axes, places)
    decreases |axes|
  {
    hide Blend, CornerValues, Times;
    if |axes| == 0 {
      NoAxes(table, axes, places);
    } else {
      var m, rest := Pow2(|axes| - 1), NodeCount(axes[1..]);
      var v := CornerValues(table, axes, places);
      CornerHalf(table, axes, places, 0);
      CornerHalf(table, axes, places, 1);
      assert v[..m] == v[0..m] && v[m..] == v[m..m + m];
      assert Fractions(places)[1..] == Fractions(places[1..]);
      FoldIsInterpolation(Block(table, rest, |axes[0]|, Side(axes[0], places[0], 0)), axes[1..], places[1..]);
      FoldIsInterpolation(Block(table, rest, |axes[0]|, Side(axes[0], places[0], 1)), axes[1..], places[1..]);
    }
  }

  lemma NoAxes(table: seq<real>, axes: seq<Axis>, places: seq<Place>)
    requires |axes| == |places| == 0 && |table| == 1
    ensures CornerValues(table, axes, places)[0] == table[0]
  {
  }

  /** The flat lookup: gathering the corners and reducing innermost-first gives the block interpolant. */
  lemma ReductionIsInterpolation(table: seq<real>, axes: seq<Axis>, places: seq<Place>, corners: seq<nat>)
    requires PlacesFit(axes, places) && |table| == NodeCount(axes) && |corners| == Pow2(|axes|)
    requires forall c :: 0 <= c < |corners| ==> corners[c] == CornerIndex(axes, places, c)
    ensures forall c :: 0 <= c < |corners| ==> corners[c] < |table|
    ensures FoldInner(Gather(table, corners), Fractions(places)) == Interpolate(table, axes, places)
  {
    forall c | 0 <= c < |corners|
      ensures corners[c] < |table|
    {
      CornerInRange(axes, places, c);
    }
    assert Gather(table, corners) == CornerValues(table, axes, places);
    FoldsAgree(Gather(table, corners), Fractions(places));
    FoldIsInterpolation(table, axes, places);
  }

  // ---------------------------------------------------------------- bounds

  lemma {:induction false} FoldBounded(v: seq<real>, fractions: seq<real>, min: real, max: real)
    requires |v| == Pow2(|fractions|)
    requires forall k :: 0 <= k < |fractions| ==> 0.0 <= fractions[k] <= 1.0
    requires forall i :: 0 <= i < |v| ==> min <= v[i] <= max
    ensures min <= FoldOuter(v, fractions) <= max
    decreases |fractions|
  {
    hide Blend;
    if |fractions| > 0 {
      var half := Pow2(|fractions| - 1);
      FoldBounded(v[..half], fractions[1..], min, max);
      FoldBounded(v[half..], fractions[1..], min, max);
      BlendBetween(fractions[0], FoldOuter(v[..half], fractions[1..]), FoldOuter(v[half..], fractions[1..]), min, max);
    }
  }

  /** The result stays between any bounds of the 2^N corner entries around the query. */
  lemma ResultBounded(table: seq<real>, axes: seq<Axis>, places: seq<Place>, min: real, max: real)
    requires PlacesFit(axes, places) && |table| == NodeCount(axes)
    requires forall k :: 0 <= k < |places| ==> 0.0 <= places[k].fraction <= 1.0
    requires forall c :: 0 <= c < Pow2(|axes|) ==> min <= CornerValues(table, axes, places)[c] <= max
    ensures min <= Interpolate(table, axes, places) <= max
  {
    FoldBounded(CornerValues(table, axes, places), Fractions(places), min, max);
    FoldIsInterpolation(table, axes, places);
  }
}
