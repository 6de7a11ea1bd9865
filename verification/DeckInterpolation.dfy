/**
 * Multilinear interpolation in a row-major table, defined block by block: the first axis selects two
 * blocks of the table, each is interpolated over the remaining axes, and the two values are blended.
 *
 * The definition has no strides and no corner list. Exactness on multilinear functions, the value at
 * a node and the slicing law are proved here, where they are inductions on the axes; the flat
 * implementation is proved equal to it elsewhere.
 */
module DeckInterpolation {
  import opened Reals

  type Axis = seq<real>

  /** Position in an axis: the lower index and the fraction towards the next point. */
  datatype Place = Place(index: nat, fraction: real)

  /** Multiplication by name, so that proofs about positions can leave its meaning aside. */
  function Times(a: nat, b: nat): nat {
    a * b
  }

  function NodeCount(axes: seq<Axis>): nat {
    if |axes| == 0 then 1 else Times(|axes[0]|, NodeCount(axes[1..]))
  }

  /** Upper index of a cell; an axis with a single point has no upper neighbour. */
  function Upper(axis: Axis, p: Place): nat {
    if |axis| == 1 then p.index else p.index + 1
  }

  predicate PlaceFits(axis: Axis, p: Place) {
    p.index < |axis| && Upper(axis, p) < |axis|
  }

  predicate PlacesFit(axes: seq<Axis>, places: seq<Place>) {
    |places| == |axes| && forall k :: 0 <= k < |axes| ==> PlaceFits(axes[k], places[k])
  }

  lemma TimesNext(i: nat, size: nat)
    ensures Times(i + 1, size) == Times(i, size) + size
  {
  }

  lemma {:induction false} TimesGrows(i: nat, j: nat, size: nat)
    requires i <= j
    ensures Times(i, size) <= Times(j, size)
    decreases j - i
  {
    hide Times;
    if i < j {
      TimesNext(i, size);
      TimesGrows(i + 1, j, size);
    }
  }

  lemma TimesOne(a: nat)
    ensures Times(a, 1) == a == Times(1, a)
  {
  }

  lemma TimesAgain(a: nat, b: nat, c: nat)
    ensures Times(Times(a, b), c) == Times(a, Times(b, c))
  {
  }

  lemma BlockFits(size: nat, count: nat, i: nat)
    requires i < count
    ensures Times(i, size) + size <= Times(count, size)
  {
    hide Times;
    TimesNext(i, size);
    TimesGrows(i + 1, count, size);
  }

  function Block<T>(table: seq<T>, size: nat, count: nat, i: nat): (r: seq<T>)
    requires |table| == Times(count, size) && i < count
    ensures |r| == size
  {
    BlockFits(size, count, i);
    table[Times(i, size)..Times(i, size) + size]
  }

  function Blend(f: real, low: real, high: real): real {
    (1.0 - f) * low + f * high
  }

  /** The multilinear interpolant. */
  function Interpolate(table: seq<real>, axes: seq<Axis>, places: seq<Place>): real
    requires PlacesFit(axes, places) && |table| == NodeCount(axes)
    decreases |axes|
  {
    if |axes| == 0 then table[0]
    else
      var rest := NodeCount(axes[1..]);
      Blend(places[0].fraction,
            Interpolate(Block(table, rest, |axes[0]|, places[0].index), axes[1..], places[1..]),
            Interpolate(Block(table, rest, |axes[0]|, Upper(axes[0], places[0])), axes[1..], places[1..]))
  }

  // ---------------------------------------------------------------- the stored value at a node

  /** The entry at a multi-index, in row-major order. */
  function EntryAt<T>(table: seq<T>, axes: seq<Axis>, at: seq<nat>): T
    requires |at| == |axes| && |table| == NodeCount(axes)
    requires forall k :: 0 <= k < |axes| ==> at[k] < |axes[k]|
    decreases |axes|
  {
    if |axes| == 0 then table[0]
    else EntryAt(Block(table, NodeCount(axes[1..]), |axes[0]|, at[0]), axes[1..], at[1..])
  }

  /** The place lies exactly on grid point `k`, seen from either adjacent cell. */
  predicate OnNode(axis: Axis, p: Place, k: nat) {
    (p.index == k && p.fraction == 0.0) || (Upper(axis, p) == k && p.fraction == 1.0)
    || (|axis| == 1 && k == 0 && p.index == 0)
  }

  lemma BlendEnds(f: real, a: real, b: real)
    ensures f == 0.0 ==> Blend(f, a, b) == a
    ensures f == 1.0 ==> Blend(f, a, b) == b
    ensures a == b ==> Blend(f, a, b) == a
  {
  }

  /** At a grid node the lookup returns the stored entry, whichever adjacent cells the places name. */
  lemma {:induction false} NodeIsStored(table: seq<real>, axes: seq<Axis>, places: seq<Place>, at: seq<nat>)
    requires PlacesFit(axes, places) && |table| == NodeCount(axes) && |at| == |axes|
    requires forall k :: 0 <= k < |axes| ==> at[k] < |axes[k]| && OnNode(axes[k], places[k], at[k])
    ensures Interpolate(table, axes, places) == EntryAt(table, axes, at)
    decreases |axes|
  {
    hide Blend, Times;
    if |axes| > 0 {
      var rest := NodeCount(axes[1..]);
      var low := Block(table, rest, |axes[0]|, places[0].index);
      var high := Block(table, rest, |axes[0]|, Upper(axes[0], places[0]));
      NodeIsStored(Block(table, rest, |axes[0]|, at[0]), axes[1..], places[1..], at[1..]);
      BlendEnds(places[0].fraction, Interpolate(low, axes[1..], places[1..]),
                Interpolate(high, axes[1..], places[1..]));
    }
  }

  // ---------------------------------------------------------------- adjacent cells

  /** On a node of the first axis only the block of that node matters. */
  lemma FirstOnNode(table: seq<real>, axes: seq<Axis>, places: seq<Place>, k: nat)
    requires |axes| > 0 && PlacesFit(axes, places) && |table| == NodeCount(axes)
    requires k < |axes[0]| && OnNode(axes[0], places[0], k)
    ensures NodeCount(axes) == Times(|axes[0]|, NodeCount(axes[1..]))
    ensures Interpolate(table, axes, places)
            == Interpolate(Block(table, NodeCount(axes[1..]), |axes[0]|, k), axes[1..], places[1..])
  {
    hide Blend, Times, Block;
    var rest := NodeCount(axes[1..]);
    var low := Block(table, rest, |axes[0]|, places[0].index);
    var high := Block(table, rest, |axes[0]|, Upper(axes[0], places[0]));
    BlendEnds(places[0].fraction, Interpolate(low, axes[1..], places[1..]),
              Interpolate(high, axes[1..], places[1..]));
  }

  /** The same place, or one grid point seen from its two adjacent cells. */
  ghost predicate SamePoint(axis: Axis, p: Place, q: Place) {
    p == q || exists k: nat :: k < |axis| && OnNode(axis, p, k) && OnNode(axis, q, k)
  }

  /** At breakpoints of any axes either adjacent cell gives the same value, wherever the other coordinates are. */
  lemma {:induction false} AdjacentCellsAgree(table: seq<real>, axes: seq<Axis>, ps: seq<Place>, qs: seq<Place>)
    requires PlacesFit(axes, ps) && PlacesFit(axes, qs) && |table| == NodeCount(axes)
    requires forall k :: 0 <= k < |axes| ==> SamePoint(axes[k], ps[k], qs[k])
    ensures Interpolate(table, axes, ps) == Interpolate(table, axes, qs)
    decreases |axes|
  {
    hide Blend, Times, Block, OnNode;
    if |axes| > 0 {
      var rest := NodeCount(axes[1..]);
      if ps[0] == qs[0] {
        AdjacentCellsAgree(Block(table, rest, |axes[0]|, ps[0].index), axes[1..], ps[1..], qs[1..]);
        AdjacentCellsAgree(Block(table, rest, |axes[0]|, Upper(axes[0], ps[0])), axes[1..], ps[1..], qs[1..]);
      } else {
        var k: nat :| k < |axes[0]| && OnNode(axes[0], ps[0], k) && OnNode(axes[0], qs[0], k);
        FirstOnNode(table, axes, ps, k);
        FirstOnNode(table, axes, qs, k);
        AdjacentCellsAgree(Block(table, rest, |axes[0]|, k), axes[1..], ps[1..], qs[1..]);
      }
    }
  }

  // ---------------------------------------------------------------- bounds

  lemma BlendBetween(f: real, a: real, b: real, min: real, max: real)
    requires 0.0 <= f <= 1.0 && min <= a <= max && min <= b <= max
    ensures min <= Blend(f, a, b) <= max
  {
    NonNegativeProduct(1.0 - f, a - min);
    NonNegativeProduct(f, b - min);
    assert Blend(f, a, b) - min == (1.0 - f) * (a - min) + f * (b - min);
    NonNegativeProduct(1.0 - f, max - a);
    NonNegativeProduct(f, max - b);
    assert max - Blend(f, a, b) == (1.0 - f) * (max - a) + f * (max - b);
  }

  // ---------------------------------------------------------------- exactness

  /** Affine in each of its `n` coordinates, whatever the others are. */
  ghost predicate Multilinear(g: seq<real> -> real, n: nat) {
    forall p: seq<real>, k: nat, x: real, y: real, f: real ::
      |p| == n && k < n ==> AffineAt(g, p, k, x, y, f)
  }

  /** Along coordinate `k` through `p`, a blend of two inputs gives the blend of the two values. */
  ghost predicate AffineAt(g: seq<real> -> real, p: seq<real>, k: nat, x: real, y: real, f: real)
    requires k < |p|
  {
    g(p[k := Blend(f, x, y)]) == Blend(f, g(p[k := x]), g(p[k := y]))
  }

  /** The function with its first coordinate fixed. */
  function Fixed(g: seq<real> -> real, x: real): seq<real> -> real {
    (p: seq<real>) => g([x] + p)
  }

  lemma FixedIsMultilinear(g: seq<real> -> real, n: nat, c: real)
    requires Multilinear(g, n + 1)
    ensures Multilinear(Fixed(g, c), n)
  {
    hide Blend;
    forall p: seq<real>, k: nat, x: real, y: real, f: real | |p| == n && k < n
      ensures AffineAt(Fixed(g, c), p, k, x, y, f)
    {
      var q := [c] + p;
      assert AffineAt(g, q, k + 1, x, y, f);
      assert q[k + 1 := Blend(f, x, y)] == [c] + p[k := Blend(f, x, y)];
      assert q[k + 1 := x] == [c] + p[k := x] && q[k + 1 := y] == [c] + p[k := y];
    }
  }

  /** The table holds the value of `g` at every grid node. */
  ghost predicate Samples(table: seq<real>, axes: seq<Axis>, g: seq<real> -> real)
    requires |table| == NodeCount(axes)
    decreases |axes|
  {
    if |axes| == 0 then table[0] == g([])
    else
      forall i :: 0 <= i < |axes[0]| ==>
        Samples(Block(table, NodeCount(axes[1..]), |axes[0]|, i), axes[1..], Fixed(g, axes[0][i]))
  }

  /** The coordinate that a place stands for. */
  function Coordinate(axis: Axis, p: Place): real
    requires PlaceFits(axis, p)
  {
    Blend(p.fraction, axis[p.index], axis[Upper(axis, p)])
  }

  function Coordinates(axes: seq<Axis>, places: seq<Place>): (r: seq<real>)
    requires PlacesFit(axes, places)
    ensures |r| == |axes|
  {
    if |axes| == 0 then [] else [Coordinate(axes[0], places[0])] + Coordinates(axes[1..], places[1..])
  }

  /** A table of samples of a multilinear function is interpolated back to that function exactly. */
  lemma {:induction false} ExactOnMultilinear(table: seq<real>, axes: seq<Axis>, places: seq<Place>,
                                              g: seq<real> -> real)
    requires PlacesFit(axes, places) && |table| == NodeCount(axes)
    requires Multilinear(g, |axes|) && Samples(table, axes, g)
    ensures Interpolate(table, axes, places) == g(Coordinates(axes, places))
    decreases |axes|
  {
    hide Blend, Multilinear, Times;
    if |axes| > 0 {
      var rest, i, j := NodeCount(axes[1..]), places[0].index, Upper(axes[0], places[0]);
      var x, y := axes[0][i], axes[0][j];
      FixedIsMultilinear(g, |axes| - 1, x);
      FixedIsMultilinear(g, |axes| - 1, y);
      ExactOnMultilinear(Block(table, rest, |axes[0]|, i), axes[1..], places[1..], Fixed(g, x));
      ExactOnMultilinear(Block(table, rest, |axes[0]|, j), axes[1..], places[1..], Fixed(g, y));
      FirstCoordinate(g, |axes|, Coordinates(axes[1..], places[1..]), x, y, places[0].fraction);
    }
  }

  lemma FirstCoordinate(g: seq<real> -> real, n: nat, rest: seq<real>, x: real, y: real, f: real)
    requires Multilinear(g, n) && n > 0 && |rest| == n - 1
    ensures g([Blend(f, x, y)] + rest) == Blend(f, Fixed(g, x)(rest), Fixed(g, y)(rest))
  {
    hide Blend;
    var p := [x] + rest;
    assert AffineAt(g, p, 0, x, y, f);
    assert p[0 := Blend(f, x, y)] == [Blend(f, x, y)] + rest;
    assert p[0 := x] == [x] + rest && p[0 := y] == [y] + rest;
  }

  // ---------------------------------------------------------------- slicing the last axis

  lemma {:induction false} NodeCountAppend(axes: seq<Axis>, last: Axis)
    ensures NodeCount(axes + [last]) == Times(NodeCount(axes), |last|)
  {
    hide Times;
    var all := axes + [last];
    if |axes| == 0 {
      assert all[1..] == [];
      TimesOne(|last|);
    } else {
      assert all[1..] == axes[1..] + [last];
      NodeCountAppend(axes[1..], last);
      TimesAgain(|axes[0]|, NodeCount(axes[1..]), |last|);
    }
  }

  lemma EntryFits(i: nat, count: nat, width: nat, j: nat)
    requires i < count && j < width
    ensures Times(i, width) + j < Times(count, width)
  {
    hide Times;
    BlockFits(width, count, i);
  }

  /** Every `width`-th entry, from entry `j` on: the table at point `j` of the last axis. */
  function Slice(table: seq<real>, width: nat, count: nat, j: nat): (r: seq<real>)
    requires |table| == Times(count, width) && j < width
    ensures |r| == count
  {
    seq(count, i requires 0 <= i < count => EntryFits(i, count, width, j); table[Times(i, width) + j])
  }

  lemma BlockOfSlice(table: seq<real>, width: nat, inner: nat, outer: nat, j: nat, i: nat)
    requires |table| == Times(Times(outer, inner), width) && j < width && i < outer
    ensures |table| == Times(outer, Times(inner, width))
    ensures Block(Slice(table, width, Times(outer, inner), j), inner, outer, i)
            == Slice(Block(table, Times(inner, width), outer, i), width, inner, j)
  {
    hide Block, Slice, Times;
    TimesAgain(outer, inner, width);
    var l := Block(Slice(table, width, Times(outer, inner), j), inner, outer, i);
    var r := Slice(Block(table, Times(inner, width), outer, i), width, inner, j);
    forall k | 0 <= k < inner
      ensures l[k] == r[k]
    {
      SliceAt(table, width, inner, outer, j, i, k);
    }
  }

  lemma SliceAt(table: seq<real>, width: nat, inner: nat, outer: nat, j: nat, i: nat, k: nat)
    requires |table| == Times(Times(outer, inner), width) && j < width && i < outer && k < inner
    requires |table| == Times(outer, Times(inner, width))
    ensures Block(Slice(table, width, Times(outer, inner), j), inner, outer, i)[k]
            == Slice(Block(table, Times(inner, width), outer, i), width, inner, j)[k]
  {
    hide Times;
    BlockFits(inner, outer, i);
    BlockFits(Times(inner, width), outer, i);
    EntryFits(k, inner, width, j);
    EntryFits(i, outer, inner, k);
    EntryFits(Times(i, inner) + k, Times(outer, inner), width, j);
    SliceIndex(i, inner, width, j, k);
  }

  lemma SliceIndex(i: nat, inner: nat, width: nat, j: nat, k: nat)
    ensures Times(Times(i, inner) + k, width) + j == Times(i, Times(inner, width)) + (Times(k, width) + j)
  {
    hide Times;
    TimesAgain(i, inner, width);
    TimesSum(Times(i, inner), k, width);
  }

  lemma TimesSum(a: nat, b: nat, c: nat)
    ensures Times(a + b, c) == Times(a, c) + Times(b, c)
  {
  }

  lemma SliceOfOne(table: seq<real>, last: Axis, p: Place, j: nat)
    requires PlaceFits(last, p) && j < |last| && OnNode(last, p, j) && |table| == Times(1, |last|)
    ensures |table| == NodeCount([last]) && Interpolate(table, [last], [p]) == Slice(table, |last|, 1, j)[0]
  {
    hide Blend;
    assert NodeCount([last]) == |last| && [last][1..] == [] && [p][1..] == [];
    BlendEnds(p.fraction, table[p.index], table[Upper(last, p)]);
    assert Block(table, 1, |last|, p.index)[0] == table[p.index];
    assert Block(table, 1, |last|, Upper(last, p))[0] == table[Upper(last, p)];
  }

  /** Looking up at point `j` of the last axis is looking up the deck of that slice. */
  lemma {:induction false} SliceLookup(table: seq<real>, axes: seq<Axis>, last: Axis,
                                       places: seq<Place>, p: Place, j: nat)
    requires PlacesFit(axes, places) && PlaceFits(last, p) && j < |last| && OnNode(last, p, j)
    requires |table| == Times(NodeCount(axes), |last|)
    ensures |table| == NodeCount(axes + [last]) && PlacesFit(axes + [last], places + [p])
    ensures Interpolate(table, axes + [last], places + [p])
            == Interpolate(Slice(table, |last|, NodeCount(axes), j), axes, places)
    decreases |axes|
  {
    hide Blend, Times;
    NodeCountAppend(axes, last);
    var all, ps := axes + [last], places + [p];
    if |axes| == 0 {
      assert all == [last] && ps == [p];
      SliceOfOne(table, last, p, j);
    } else {
      assert all[1..] == axes[1..] + [last] && ps[1..] == places[1..] + [p];
      NodeCountAppend(axes[1..], last);
      var inner, outer, i, u := NodeCount(axes[1..]), |axes[0]|, places[0].index, Upper(axes[0], places[0]);
      BlockOfSlice(table, |last|, inner, outer, j, i);
      BlockOfSlice(table, |last|, inner, outer, j, u);
      SliceLookup(Block(table, Times(inner, |last|), outer, i), axes[1..], last, places[1..], p, j);
      SliceLookup(Block(table, Times(inner, |last|), outer, u), axes[1..], last, places[1..], p, j);
    }
  }
}
