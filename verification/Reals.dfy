/**
 * Real arithmetic shared by the other modules: magnitude, the smaller and the larger of two numbers, the
 * sign and cancellation laws of products, stated where nothing else is in scope, and sequences that increase.
 */
module Reals {

  function Abs(x: real): real {
    if x < 0.0 then -x else x
  }

  function Min(a: real, b: real): real {
    if a < b then a else b
  }

  function Max(a: real, b: real): real {
    if a > b then a else b
  }

  /** Multiplication by name, so that proofs can leave its meaning aside. */
  function Product(a: real, b: real): real {
    a * b
  }

  lemma PositiveProduct(a: real, b: real)
    requires a > 0.0 && b > 0.0
    ensures a * b > 0.0
  {
  }

  lemma NonNegativeProduct(a: real, b: real)
    requires a >= 0.0 && b >= 0.0
    ensures a * b >= 0.0
  {
  }

  lemma Cancel(a: real, b: real, c: real)
    requires c != 0.0 && a * c == b * c
    ensures a == b
  {
    assert (a - b) * c == 0.0;
  }

  lemma SquareOfProduct(k: real, x: real)
    ensures (k * x) * (k * x) == (k * k) * (x * x)
  {
  }

  /** The `i`-th of evenly spaced points that start at zero. */
  function Spaced(step: real, i: nat): real {
    step * i as real
  }

  lemma SpacedNext(step: real, i: nat)
    ensures Spaced(step, i + 1) == Spaced(step, i) + step
  {
    assert (i + 1) as real == i as real + 1.0;
  }

  predicate Increasing(s: seq<real>) {
    forall i :: 0 < i < |s| ==> s[i - 1] < s[i]
  }

  lemma {:induction false} IncreasingOrder(s: seq<real>, i: nat, j: nat)
    requires Increasing(s) && i < j < |s|
    ensures s[i] < s[j]
  {
    if i < j - 1 {
      IncreasingOrder(s, i, j - 1);
    }
  }

  /** The value moved to the nearest point of the axis's range. */
  function Clamped(axis: seq<real>, x: real): real
    requires |axis| > 0
  {
    if x < axis[0] then axis[0] else if x > axis[|axis| - 1] then axis[|axis| - 1] else x
  }
}
