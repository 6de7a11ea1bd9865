/** Dense solving with partial pivoting; `None` stands for the singular-matrix error of `numpy.linalg`. */
module LinearSolve {
  import opened Wrappers
  import opened Reals
  import opened LinearAlgebra

  predicate Square(a: Mat) {
    forall i :: 0 <= i < |a| ==> |a[i]| == |a|
  }

  /** The row at or after `from` whose first entry is largest in magnitude, the earliest on ties. */
  function PivotRow(a: Mat, from: nat): (p: nat)
    requires from < |a|
    requires forall i :: 0 <= i < |a| ==> |a[i]| > 0
    ensures from <= p < |a|
    ensures forall i :: from <= i < |a| ==> Abs(a[i][0]) <= Abs(a[p][0])
    decreases |a| - from
  {
    if from + 1 == |a| then from
    else
      var p := PivotRow(a, from + 1);
      if Abs(a[p][0]) > Abs(a[from][0]) then p else from
  }

  function Swap<T>(s: seq<T>, p: nat): (r: seq<T>)
    requires p < |s|
    ensures |r| == |s| && r[0] == s[p] && r[p] == s[0]
    ensures forall i :: 0 < i < |s| && i != p ==> r[i] == s[i]
  {
    s[0 := s[p]][p := s[0]]
  }

  /** `row` minus the multiple of `head` that cancels its first entry; the first column is dropped. */
  function ReducedRow(row: Vec, head: Vec): (r: Vec)
    requires |row| == |head| > 0 && head[0] != 0.0
    ensures |r| == |head| - 1
  {
    Sub(row[1..], Scale(row[0] / head[0], head[1..]))
  }

  function ReducedEntry(row: Vec, entry: real, head: Vec, headEntry: real): real
    requires |row| == |head| > 0 && head[0] != 0.0
  {
    entry - (row[0] / head[0]) * headEntry
  }

  /** The rows below the first with the first unknown eliminated. */
  function Eliminated(a: Mat): (r: Mat)
    requires |a| > 0 && Square(a) && a[0][0] != 0.0
    ensures |r| == |a| - 1 && Square(r)
    ensures forall i :: 0 <= i < |r| ==> r[i] == ReducedRow(a[i + 1], a[0])
  {
    seq(|a| - 1, i requires 0 <= i < |a| - 1 => ReducedRow(a[i + 1], a[0]))
  }

  function EliminatedRhs(a: Mat, b: Vec): (r: Vec)
    requires |a| == |b| > 0 && Square(a) && a[0][0] != 0.0
    ensures |r| == |b| - 1
    ensures forall i :: 0 <= i < |r| ==> r[i] == ReducedEntry(a[i + 1], b[i + 1], a[0], b[0])
  {
    seq(|a| - 1, i requires 0 <= i < |a| - 1 => ReducedEntry(a[i + 1], b[i + 1], a[0], b[0]))
  }

  /** The first unknown, once the others are known. */
  function BackSubstitute(head: Vec, headEntry: real, y: Vec): (r: Vec)
    requires |head| == |y| + 1 && head[0] != 0.0
    ensures |r| == |head| && r[1..] == y
  {
    [(headEntry - Dot(head[1..], y)) / head[0]] + y
  }

  /** `x` with `a x == b`, or `None` when a pivot column vanishes. */
  function Solve(a: Mat, b: Vec): (r: Option<Vec>)
    requires Square(a) && |b| == |a|
    ensures r.Some? ==> |r.value| == |a|
    decreases |a|
  {
    if |a| == 0 then Some([])
    else
      var p := PivotRow(a, 0);
      if a[p][0] == 0.0 then None
      else
        var (m, c) := (Swap(a, p), Swap(b, p));
        match Solve(Eliminated(m), EliminatedRhs(m, c))
        case None => None
        case Some(y) => Some(BackSubstitute(m[0], c[0], y))
  }

  /** The columns of the inverse are the solutions for the unit vectors. */
  function InverseColumns(a: Mat, j: nat): (r: Option<seq<Vec>>)
    requires Square(a) && j <= |a|
    ensures r.Some? ==> |r.value| == j && Dim(r.value, |a|)
    ensures r.Some? ==> forall i :: 0 <= i < j ==> Solve(a, Unit(|a|, i)) == Some(r.value[i])
  {
    hide Solve;
    if j == 0 then Some([])
    else
      match (InverseColumns(a, j - 1), Solve(a, Unit(|a|, j - 1)))
      case (Some(cols), Some(x)) => Some(cols + [x])
      case _ => None
  }

  function Inverse(a: Mat): (r: Option<Mat>)
    requires Square(a)
    ensures r.Some? ==> IsMat(r.value, |a|, |a|)
  {
    match InverseColumns(a, |a|)
    case None => None
    case Some(cols) => Some(Transpose(cols, |a|))
  }

  // ---------------------------------------------------------------- elimination step

  lemma RowCombination(q: real, p: real, x: real, b: real, d: real)
    requires p != 0.0 && p * x + d == b
    ensures q * x + (q / p) * d == (q / p) * b
  {
    var f := q / p;
    assert f * p == q;
    Distribute(f, p * x, d);
    Associate(f, p, x);
  }

  lemma FirstUnknown(p: real, x: real, b: real, d: real)
    requires p != 0.0
    ensures p * x + d == b <==> x == (b - d) / p
  {
    if p * x + d == b {
      assert (p * x) / p == x;
    }
  }

  /** Against a satisfied head equation, a row and its reduction say the same. */
  lemma ReducedRowEquivalent(row: Vec, entry: real, head: Vec, headEntry: real, x: Vec)
    requires |row| == |head| == |x| > 0 && head[0] != 0.0
    requires Dot(head, x) == headEntry
    ensures Dot(row, x) == entry <==>
            Dot(ReducedRow(row, head), x[1..]) == ReducedEntry(row, entry, head, headEntry)
  {
    hide Dot, Sub, Scale;
    var f, d := row[0] / head[0], Dot(head[1..], x[1..]);
    DotFront(row, x);
    DotFront(head, x);
    DotSub(x[1..], row[1..], Scale(f, head[1..]));
    DotScale(f, head[1..], x[1..]);
    RowCombination(row[0], head[0], x[0], headEntry, d);
  }

  lemma HeadEquivalent(head: Vec, headEntry: real, x: Vec)
    requires |head| == |x| > 0 && head[0] != 0.0
    ensures Dot(head, x) == headEntry <==> x == BackSubstitute(head, headEntry, x[1..])
  {
    hide Dot;
    DotFront(head, x);
    FirstUnknown(head[0], x[0], headEntry, Dot(head[1..], x[1..]));
    assert x == [x[0]] + x[1..];
  }

  /** Eliminating the first unknown keeps exactly the solutions. */
  lemma EliminationEquivalent(a: Mat, b: Vec, x: Vec)
    requires |a| == |b| == |x| > 0 && Square(a) && a[0][0] != 0.0
    ensures MatVec(a, x) == b <==>
            && x == BackSubstitute(a[0], b[0], x[1..])
            && MatVec(Eliminated(a), x[1..]) == EliminatedRhs(a, b)
  {
    hide Dot, ReducedRow, ReducedEntry, BackSubstitute, MatVec, Eliminated, EliminatedRhs;
    var e, eb, ax := MatVec(Eliminated(a), x[1..]), EliminatedRhs(a, b), MatVec(a, x);
    HeadEquivalent(a[0], b[0], x);
    if Dot(a[0], x) == b[0] {
      forall i | 0 <= i < |a| - 1
        ensures e[i] == eb[i] <==> ax[i + 1] == b[i + 1]
      {
        ReducedRowEquivalent(a[i + 1], b[i + 1], a[0], b[0], x);
      }
      if e == eb {
        forall k | 0 <= k < |a|
          ensures ax[k] == b[k]
        {
          assert k > 0 ==> e[k - 1] == eb[k - 1];
        }
      }
    }
  }

  /** Exchanging two equations keeps exactly the solutions. */
  lemma SwapEquivalent(a: Mat, b: Vec, x: Vec, p: nat)
    requires p < |a| == |b| == |x| && Square(a)
    ensures Square(Swap(a, p))
    ensures MatVec(a, x) == b <==> MatVec(Swap(a, p), x) == Swap(b, p)
  {
    hide Dot, Swap, MatVec;
    var l, r := MatVec(Swap(a, p), x), Swap(b, p);
    if MatVec(a, x) == b {
      assert l == r;
    }
    if l == r {
      forall i | 0 <= i < |a|
        ensures MatVec(a, x)[i] == b[i]
      {
        assert l[0] == r[0] && l[p] == r[p] && l[i] == r[i];
      }
    }
  }

  // ---------------------------------------------------------------- main results

  /** A returned vector is the one and only solution. */
  lemma {:induction false} SolveUnique(a: Mat, b: Vec, x: Vec)
    requires Square(a) && |b| == |x| == |a| && Solve(a, b).Some?
    ensures MatVec(a, x) == b <==> x == Solve(a, b).value
    decreases |a|
  {
    if |a| > 0 {
      hide Dot, MatVec, Swap, PivotRow, Eliminated, EliminatedRhs, BackSubstitute;
      var p := PivotRow(a, 0);
      var m, c := Swap(a, p), Swap(b, p);
      SwapEquivalent(a, b, x, p);
      EliminationEquivalent(m, c, x);
      SolveUnique(Eliminated(m), EliminatedRhs(m, c), x[1..]);
      var y := Solve(Eliminated(m), EliminatedRhs(m, c)).value;
      assert Solve(a, b).value == BackSubstitute(m[0], c[0], y);
    }
  }

  lemma SolveCorrect(a: Mat, b: Vec)
    requires Square(a) && |b| == |a| && Solve(a, b).Some?
    ensures MatVec(a, Solve(a, b).value) == b
  {
    SolveUnique(a, b, Solve(a, b).value);
  }

  /** The solver gives up only on a matrix that annihilates a nonzero vector. */
  lemma {:induction false} NoneIsSingular(a: Mat, b: Vec) returns (v: Vec)
    requires Square(a) && |b| == |a| && Solve(a, b).None?
    ensures |v| == |a| && v != Zeros(|a|) && MatVec(a, v) == Zeros(|a|)
    decreases |a|
  {
    hide Dot, MatVec, Swap, PivotRow, Eliminated, EliminatedRhs, BackSubstitute, ReducedRow;
    var n := |a|;
    var p := PivotRow(a, 0);
    if a[p][0] == 0.0 {
      v := Unit(n, 0);
      assert v[0] != Zeros(n)[0];
      forall i | 0 <= i < n
        ensures MatVec(a, v)[i] == 0.0
      {
        assert Abs(a[i][0]) <= Abs(a[p][0]);
        DotUnit(n, 0, a[i]);
      }
    } else {
      var m, c := Swap(a, p), Swap(b, p);
      var w := NoneIsSingular(Eliminated(m), EliminatedRhs(m, c));
      v := BackSubstitute(m[0], 0.0, w);
      assert v != Zeros(n) by {
        assert Zeros(n)[1..] == Zeros(n - 1);
      }
      EliminatedZeros(m);
      EliminationEquivalent(m, Zeros(n), v);
      SwapEquivalent(a, Zeros(n), v, p);
      assert Swap(Zeros(n), p) == Zeros(n);
    }
  }

  lemma EliminatedZeros(a: Mat)
    requires |a| > 0 && Square(a) && a[0][0] != 0.0
    ensures EliminatedRhs(a, Zeros(|a|)) == Zeros(|a| - 1)
  {
  }

  /** Whether a system is solvable does not depend on its right-hand side. */
  ghost predicate Nonsingular(a: Mat)
    requires Square(a)
  {
    forall v: Vec :: |v| == |a| && v != Zeros(|a|) ==> MatVec(a, v) != Zeros(|a|)
  }

  lemma AddedNothing(x: Vec, v: Vec)
    requires |x| == |v|
    ensures Add(x, v) == x ==> v == Zeros(|v|)
  {
    if Add(x, v) == x {
      forall i | 0 <= i < |v|
        ensures v[i] == 0.0
      {
        assert Add(x, v)[i] == x[i];
      }
    }
  }

  lemma SolvableIffNonsingular(a: Mat, b: Vec)
    requires Square(a) && |b| == |a|
    ensures Solve(a, b).Some? <==> Nonsingular(a)
  {
    hide Solve, Dot, MatVec;
    if Solve(a, b).None? {
      var v := NoneIsSingular(a, b);
      assert !Nonsingular(a);
    } else {
      var x := Solve(a, b).value;
      forall v: Vec | |v| == |a| && v != Zeros(|a|)
        ensures MatVec(a, v) != Zeros(|a|)
      {
        if MatVec(a, v) == Zeros(|a|) {
          hide Dot, MatVec, Solve;
          MatVecAdd(a, x, v);
          SolveCorrect(a, b);
          assert MatVec(a, Add(x, v)) == b;
          SolveUnique(a, b, Add(x, v));
          AddedNothing(x, v);
        }
      }
    }
  }

  lemma DefiniteIsNonsingular(a: Mat)
    requires Square(a) && PositiveDefinite(a, |a|)
    ensures Nonsingular(a)
  {
    hide Dot, MatVec;
    forall v: Vec | |v| == |a| && v != Zeros(|a|)
      ensures MatVec(a, v) != Zeros(|a|)
    {
      DotZeros(v);
    }
  }

  lemma {:induction false} InverseExists(a: Mat, j: nat)
    requires Square(a) && j <= |a| && Nonsingular(a)
    ensures InverseColumns(a, j).Some?
  {
    hide Solve, Dot, MatVec;
    if j > 0 {
      InverseExists(a, j - 1);
      SolvableIffNonsingular(a, Unit(|a|, j - 1));
    }
  }

  /** Applying the inverse matrix is solving. */
  lemma InverseSolves(a: Mat, w: Vec)
    requires Square(a) && |w| == |a| && Nonsingular(a)
    ensures Inverse(a).Some?
    ensures Solve(a, w) == Some(MatVec(Inverse(a).value, w))
  {
    hide Solve, Dot, MatVec, InverseColumns, Comb, MapMat, Transpose, Nonsingular;
    var n := |a|;
    InverseExists(a, n);
    var cols := InverseColumns(a, n).value;
    var x := Comb(w, cols, n);
    TransposeVec(cols, n, w);
    MatVecComb(a, w, cols, n);
    assert MapMat(a, cols, n) == Identity(n) by {
      forall i | 0 <= i < n
        ensures MapMat(a, cols, n)[i] == Identity(n)[i]
      {
        SolveCorrect(a, Unit(n, i));
      }
    }
    CombUnits(w);
    SolvableIffNonsingular(a, w);
    SolveUnique(a, w, x);
  }

  /** The inverse of a symmetric matrix is symmetric. */
  lemma InverseSymmetric(a: Mat, x: Vec, y: Vec)
    requires Square(a) && |x| == |y| == |a| && Nonsingular(a) && Symmetric(a, |a|)
    requires Inverse(a).Some?
    ensures Dot(x, MatVec(Inverse(a).value, y)) == Dot(y, MatVec(Inverse(a).value, x))
  {
    InverseSolves(a, x);
    InverseSolves(a, y);
    SolveCorrect(a, x);
    SolveCorrect(a, y);
    var u, v := MatVec(Inverse(a).value, x), MatVec(Inverse(a).value, y);
    DotSymmetric(x, v);
    DotSymmetric(y, u);
    assert Dot(v, MatVec(a, u)) == Dot(u, MatVec(a, v));
  }
}
