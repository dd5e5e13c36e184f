/** Matrix inversion by Gauss-Jordan elimination with partial pivoting:
    _invert in shared/mezna_shared/allocation.py. */
module GaussJordan {
  import opened Options
  import opened Decimals
  import opened Sums

  /** Pivots smaller than this count as zero. */
  const TINY := 0.000000000001

  ghost predicate IsSquare(a: Matrix) {
    Rectangular(a, |a|, |a|)
  }

  // ---- The elimination ----------------------------------------------------------

  /** The matrix with the identity to its right. */
  function Augment(a: Matrix): (m: Matrix)
    ensures |m| == |a|
    ensures IsSquare(a) ==> Rectangular(m, |a|, 2 * |a|)
  {
    seq(|a|, i requires 0 <= i < |a| => a[i] + seq(|a|, j => Delta(i, j)))
  }

  /** Among the rows from col up to k, the first with the largest entry in column col. */
  function PivotUpTo(m: Matrix, col: nat, k: nat): (p: nat)
    requires col < k
    ensures col <= p < k
  {
    if k == col + 1 then col
    else
      var p := PivotUpTo(m, col, k - 1);
      if Abs(Entry(m, k - 1, col)) > Abs(Entry(m, p, col)) then k - 1 else p
  }

  function SwapRows(m: Matrix, i: nat, j: nat): (r: Matrix)
    requires i < |m| && j < |m|
    ensures |r| == |m|
  {
    m[i := m[j]][j := m[i]]
  }

  function ScaleRow(row: Vector, pv: real): (r: Vector)
    requires pv != 0.0
    ensures |r| == |row|
  {
    seq(|row|, k requires 0 <= k < |row| => row[k] / pv)
  }

  /** row - factor * unit */
  function SubtractRow(row: Vector, factor: real, unit: Vector): (r: Vector)
    requires |row| == |unit|
    ensures |r| == |row|
  {
    seq(|row|, k requires 0 <= k < |row| => row[k] - factor * unit[k])
  }

  /** Row r of the matrix in which column col has been cleared by the unit row col. */
  function ClearedRow(m: Matrix, col: nat, r: nat): (row: Vector)
    requires col < |m| && r < |m| && |m[r]| == |m[col]|
    ensures |row| == |m[r]|
  {
    if r == col then m[r] else SubtractRow(m[r], Entry(m, r, col), m[col])
  }

  /** Swap the pivot row into place and make its entry 1. */
  function Normalized(n: nat, m: Matrix, col: nat, p: nat): (u: Matrix)
    requires Rectangular(m, n, 2 * n) && col < n && p < n && Entry(m, p, col) != 0.0
    ensures Rectangular(u, n, 2 * n)
  {
    SwapRows(m, col, p)[col := ScaleRow(m[p], Entry(m, p, col))]
  }

  /** One column: normalize the pivot row, then clear the column everywhere else. */
  function ReduceColumn(n: nat, m: Matrix, col: nat, p: nat): (r: Matrix)
    requires Rectangular(m, n, 2 * n) && col < n && p < n && Entry(m, p, col) != 0.0
    ensures Rectangular(r, n, 2 * n)
  {
    var u := Normalized(n, m, col, p);
    seq(n, r requires 0 <= r < n => ClearedRow(u, col, r))
  }

  /** The augmented matrix after col columns; none once a column had no usable pivot. */
  function Eliminate(a: Matrix, col: nat): (m: Option<Matrix>)
    requires IsSquare(a) && col <= |a|
    ensures m.Some? ==> Rectangular(m.value, |a|, 2 * |a|)
  {
    if col == 0 then Some(Augment(a))
    else
      match Eliminate(a, col - 1)
      case None => None
      case Some(m) =>
        var p := PivotUpTo(m, col - 1, |a|);
        if Abs(Entry(m, p, col - 1)) < TINY then None else Some(ReduceColumn(|a|, m, col - 1, p))
  }

  function RightHalf(n: nat, m: Matrix): (b: Matrix)
    requires Rectangular(m, n, 2 * n)
    ensures Rectangular(b, n, n)
  {
    seq(n, i requires 0 <= i < n => m[i][n..])
  }

  /** What the inversion returns. */
  function Inverse(a: Matrix): (b: Option<Matrix>)
    requires IsSquare(a)
    ensures b.Some? ==> Rectangular(b.value, |a|, |a|)
  {
    match Eliminate(a, |a|)
    case None => None
    case Some(m) => Some(RightHalf(|a|, m))
  }

  // ---- The loops ------------------------------------------------------------------

  /** The first row from col on with the largest entry in that column. */
  method FindPivot(n: nat, m: Matrix, col: nat) returns (p: nat)
    requires Rectangular(m, n, 2 * n) && col < n
    ensures p == PivotUpTo(m, col, n)
    ensures col <= p < n
    ensures forall r :: col <= r < n ==> Abs(m[r][col]) <= Abs(m[p][col])
    ensures forall r :: col <= r < p ==> Abs(m[r][col]) < Abs(m[p][col])
  {
    p := col;
    for i := col + 1 to n
      invariant col <= p < i && p == PivotUpTo(m, col, i)
      invariant forall r :: col <= r < i ==> Abs(m[r][col]) <= Abs(m[p][col])
      invariant forall r :: col <= r < p ==> Abs(m[r][col]) < Abs(m[p][col])
    {
      if Abs(m[i][col]) > Abs(m[p][col]) {
        p := i;
      }
    }
  }

  /** Gauss-Jordan with partial pivoting, in place on the augmented rows. */
  method Invert(a: Matrix) returns (result: Option<Matrix>)
    requires IsSquare(a)
    ensures result == Inverse(a)
  {
    hide Normalized, ScaleRow, SubtractRow, Augment, SwapRows;
    var n := |a|;
    var m: Matrix := Augment(a);
    for col := 0 to n
      invariant Rectangular(m, n, 2 * n) && Eliminate(a, col) == Some(m)
    {
      var pivot := FindPivot(n, m, col);
      if Abs(m[pivot][col]) < TINY {
        NoneStays(a, col + 1, n);
        return None;
      }
      ghost var before := m;
      m := SwapRows(m, col, pivot);
      SwapShape(n, before, col, pivot);
      var pv := m[col][col];
      m := m[col := ScaleRow(m[col], pv)];
      ghost var unit := m;
      NormalizedMeaning(n, before, col, pivot);
      for r := 0 to n
        invariant |m| == n && m[col] == unit[col]
        invariant forall i :: 0 <= i < r ==> m[i] == ClearedRow(unit, col, i)
        invariant forall i :: r <= i < n ==> m[i] == unit[i]
      {
        if r != col && m[r][col] != 0.0 {
          m := m[r := SubtractRow(m[r], m[r][col], m[col])];
        } else if r != col {
          SubtractNothing(m[r], m[col]);
        }
      }
      assert m == ReduceColumn(n, before, col, pivot);
    }
    return Some(RightHalf(n, m));
  }

  lemma SwapShape(n: nat, m: Matrix, i: nat, j: nat)
    requires Rectangular(m, n, 2 * n) && i < n && j < n
    ensures Rectangular(SwapRows(m, i, j), n, 2 * n) && SwapRows(m, i, j)[i] == m[j]
  {
  }

  lemma NormalizedMeaning(n: nat, m: Matrix, col: nat, p: nat)
    requires Rectangular(m, n, 2 * n) && col < n && p < n && Entry(m, p, col) != 0.0
    ensures Normalized(n, m, col, p) == SwapRows(m, col, p)[col := ScaleRow(m[p], Entry(m, p, col))]
  {
  }

  lemma SubtractNothing(row: Vector, unit: Vector)
    requires |row| == |unit|
    ensures SubtractRow(row, 0.0, unit) == row
  {
  }

  /** Once a column failed the elimination has no result. */
  lemma {:induction false} NoneStays(a: Matrix, col: nat, k: nat)
    requires IsSquare(a) && col <= k <= |a| && Eliminate(a, col).None?
    ensures Eliminate(a, k).None?
  {
    if col < k { NoneStays(a, col, k - 1); }
  }

  // ---- When there is no inverse -----------------------------------------------------

  /** After col columns every candidate pivot of the next one is below the threshold. */
  ghost predicate Stuck(a: Matrix, col: nat)
    requires IsSquare(a)
  {
    col < |a| && Eliminate(a, col).Some? && forall r :: col <= r < |a| ==> Abs(Entry(Eliminate(a, col).value, r, col)) < TINY
  }

  lemma {:induction false} PivotIsLargest(m: Matrix, col: nat, k: nat)
    requires col < k
    ensures forall r :: col <= r < k ==> Abs(Entry(m, r, col)) <= Abs(Entry(m, PivotUpTo(m, col, k), col))
  {
    if k > col + 1 { PivotIsLargest(m, col, k - 1); }
  }

  lemma StuckStops(a: Matrix, col: nat)
    requires IsSquare(a) && col < |a| && Eliminate(a, col).Some?
    ensures Eliminate(a, col + 1).None? <==> Stuck(a, col)
  {
    hide ReduceColumn;
    PivotIsLargest(Eliminate(a, col).value, col, |a|);
  }

  lemma {:induction false} SomeColumnStuck(a: Matrix, col: nat)
    requires IsSquare(a) && col <= |a| && Eliminate(a, col).None?
    ensures exists k :: 0 <= k < col && Stuck(a, k)
  {
    hide Stuck, ReduceColumn, Augment;
    assert col > 0 by { EliminateStarts(a); }
    if Eliminate(a, col - 1).None? {
      SomeColumnStuck(a, col - 1);
    } else {
      StuckStops(a, col - 1);
    }
  }

  lemma EliminateStarts(a: Matrix)
    requires IsSquare(a)
    ensures Eliminate(a, 0) == Some(Augment(a))
  {
  }

  /** No result exactly when some column is stuck. */
  lemma NoneIffStuck(a: Matrix)
    requires IsSquare(a)
    ensures Inverse(a).None? <==> exists col :: Stuck(a, col)
  {
    hide Stuck, ReduceColumn;
    if Inverse(a).None? {
      SomeColumnStuck(a, |a|);
    }
    forall col: nat | Stuck(a, col) ensures Inverse(a).None? {
      StuckColumn(a, col);
      StuckStops(a, col);
      NoneStays(a, col + 1, |a|);
    }
  }

  lemma StuckColumn(a: Matrix, col: nat)
    requires IsSquare(a) && Stuck(a, col)
    ensures col < |a| && Eliminate(a, col).Some?
  {
  }

  // ---- What the elimination keeps ---------------------------------------------------

  /** The right half of an augmented row. */
  function Right(n: nat, row: Vector): int -> real {
    Vec(if n <= |row| then row[n..] else [])
  }

  /** The right half times the original matrix is the left half. */
  ghost predicate RowConsistent(n: nat, row: Vector, a: Matrix) {
    forall j :: 0 <= j < n ==> At(row, j) == RowTimes(n, Right(n, row), Mat(a))(j)
  }

  /** row == base + c * other, all of width 2n */
  ghost predicate Combines(n: nat, row: Vector, base: Vector, c: real, other: Vector) {
    |row| == |base| == |other| == 2 * n && forall k :: 0 <= k < 2 * n ==> row[k] == base[k] + c * other[k]
  }

  lemma RightCombines(n: nat, row: Vector, base: Vector, c: real, other: Vector)
    requires Combines(n, row, base, c, other)
    ensures forall k :: 0 <= k < n ==> Right(n, row)(k) == Right(n, base)(k) + c * Right(n, other)(k)
  {
  }

  lemma CombinationConsistent(n: nat, row: Vector, base: Vector, c: real, other: Vector, a: Matrix)
    requires Combines(n, row, base, c, other)
    requires RowConsistent(n, base, a) && RowConsistent(n, other, a)
    ensures RowConsistent(n, row, a)
  {
    RightCombines(n, row, base, c, other);
    hide Right, Mat;
    forall j | 0 <= j < n ensures At(row, j) == RowTimes(n, Right(n, row), Mat(a))(j) {
      LinearTimes(n, Right(n, row), Right(n, base), c, Right(n, other), Slice(Flip(Mat(a)), j));
      assert At(base, j) == RowTimes(n, Right(n, base), Mat(a))(j) && At(other, j) == RowTimes(n, Right(n, other), Mat(a))(j);
    }
  }

  /** The left half of the row, times x. */
  function LeftDot(n: nat, row: Vector, x: Vector): real {
    Sum(n, Times(Vec(row), Vec(x)))
  }

  lemma CombinationDot(n: nat, row: Vector, base: Vector, c: real, other: Vector, x: Vector)
    requires Combines(n, row, base, c, other)
    ensures LeftDot(n, row, x) == LeftDot(n, base, x) + c * LeftDot(n, other, x)
  {
    forall k | 0 <= k < n ensures Vec(row)(k) == Vec(base)(k) + c * Vec(other)(k) {
      assert row[k] == base[k] + c * other[k];
    }
    LinearTimes(n, Vec(row), Vec(base), c, Vec(other), Vec(x));
  }

  /** Row s of a x. */
  function Image(a: Matrix, x: Vector, s: int): real {
    TimesColumn(|a|, Mat(a), Vec(x))(s)
  }

  /** The first col columns of the left half are those of the identity. */
  ghost predicate Reduced(n: nat, m: Matrix, col: nat) {
    forall r, c :: 0 <= r < n && 0 <= c < col ==> Entry(m, r, c) == Delta(r, c)
  }

  /** The left halves of the first col rows are orthogonal to x. */
  ghost predicate Killed(n: nat, m: Matrix, col: nat, x: Vector) {
    forall i :: 0 <= i < col && i < |m| ==> LeftDot(n, m[i], x) == 0.0
  }

  /** Row s of a x is the left half of some row of m, times x. */
  ghost predicate Mirrored(n: nat, m: Matrix, a: Matrix, x: Vector, s: nat) {
    exists r :: 0 <= r < |m| && LeftDot(n, m[r], x) == Image(a, x, s)
  }

  /** On vectors that the finished rows kill, every row of a acts as some row of m does. */
  ghost predicate ActsLike(n: nat, m: Matrix, a: Matrix, col: nat) {
    forall x: Vector, s: nat :: Killed(n, m, col, x) && s < n ==> Mirrored(n, m, a, x, s)
  }

  ghost predicate Progress(n: nat, m: Matrix, a: Matrix, col: nat) {
    && Rectangular(m, n, 2 * n) && Reduced(n, m, col) && ActsLike(n, m, a, col)
    && (forall r :: 0 <= r < n ==> RowConsistent(n, m[r], a))
  }

  lemma RightIsUnit(n: nat, row: Vector, r: nat)
    requires |row| == 2 * n && forall k :: n <= k < 2 * n ==> row[k] == Delta(r, k - n)
    ensures forall k :: 0 <= k < n ==> Right(n, row)(k) == Delta(r, k)
  {
  }

  lemma AugmentConsistent(a: Matrix, r: nat)
    requires IsSquare(a) && r < |a|
    ensures RowConsistent(|a|, Augment(a)[r], a)
  {
    var n, row := |a|, Augment(a)[r];
    RightIsUnit(n, row, r);
    forall j | 0 <= j < n ensures At(row, j) == RowTimes(n, Right(n, row), Mat(a))(j) {
      UnitSum(n, Right(n, row), r, Slice(Flip(Mat(a)), j));
    }
  }

  lemma AugmentActsLike(a: Matrix, x: Vector, s: nat)
    requires IsSquare(a) && s < |a|
    ensures Mirrored(|a|, Augment(a), a, x, s)
  {
    var n, row := |a|, Augment(a)[s];
    forall k | 0 <= k < n ensures Vec(row)(k) == Slice(Mat(a), s)(k) {
      assert row[k] == a[s][k];
    }
    SameWeights(n, Vec(row), Slice(Mat(a), s), Vec(x));
    assert LeftDot(n, row, x) == Image(a, x, s);
  }

  lemma AugmentProgress(a: Matrix)
    requires IsSquare(a)
    ensures Progress(|a|, Augment(a), a, 0)
  {
    hide RowConsistent, Mirrored;
    forall r | 0 <= r < |a| ensures RowConsistent(|a|, Augment(a)[r], a) { AugmentConsistent(a, r); }
    forall x: Vector, s: nat | s < |a| ensures Mirrored(|a|, Augment(a), a, x, s) { AugmentActsLike(a, x, s); }
  }

  /** Where row r of the reduced matrix comes from: a row of m less a multiple of the pivot row. */
  lemma ReducedRow(n: nat, m: Matrix, col: nat, p: nat, r: nat)
    requires Rectangular(m, n, 2 * n) && col < n && p < n && r < n && Entry(m, p, col) != 0.0
    ensures var pv, t := Entry(m, p, col), ReduceColumn(n, m, col, p);
            && Combines(n, t[col], m[p], 1.0 / pv - 1.0, m[p])
            && (r != col ==> var q := if r == p then col else r;
                             Combines(n, t[r], m[q], -Entry(m, q, col), t[col]))
  {
    hide Entry;
    var pv, u, t := Entry(m, p, col), Normalized(n, m, col, p), ReduceColumn(n, m, col, p);
    assert t[col] == u[col] == ScaleRow(m[p], pv);
    forall k | 0 <= k < 2 * n ensures t[col][k] == m[p][k] + (1.0 / pv - 1.0) * m[p][k] {
      Rescale(m[p][k], pv);
    }
    if r != col {
      var q := if r == p then col else r;
      assert u[r] == m[q];
      EntryOfRow(u, r, m, q, col);
      assert t[r] == SubtractRow(m[q], Entry(m, q, col), t[col]);
    }
  }

  lemma EntryOfRow(u: Matrix, r: nat, m: Matrix, q: nat, col: nat)
    requires r < |u| && q < |m| && u[r] == m[q]
    ensures Entry(u, r, col) == Entry(m, q, col)
  {
  }

  lemma Rescale(x: real, pv: real)
    requires pv != 0.0
    ensures x / pv == x + (1.0 / pv - 1.0) * x
  {
  }

  lemma ReduceConsistent(n: nat, m: Matrix, a: Matrix, col: nat, p: nat, r: nat)
    requires Rectangular(m, n, 2 * n) && col < n && p < n && r < n && Entry(m, p, col) != 0.0
    requires forall i :: 0 <= i < n ==> RowConsistent(n, m[i], a)
    ensures RowConsistent(n, ReduceColumn(n, m, col, p)[r], a)
  {
    hide RowConsistent, ReduceColumn, Combines, Entry;
    var pv, t := Entry(m, p, col), ReduceColumn(n, m, col, p);
    ReducedRow(n, m, col, p, r);
    CombinationConsistent(n, t[col], m[p], 1.0 / pv - 1.0, m[p], a);
    if r != col {
      var q := if r == p then col else r;
      CombinationConsistent(n, t[r], m[q], -Entry(m, q, col), t[col], a);
    }
  }

  /** The new column is cleared, and the earlier ones stay so. */
  lemma ReduceKeepsReduced(n: nat, m: Matrix, col: nat, p: nat)
    requires Rectangular(m, n, 2 * n) && col <= p < n && Entry(m, p, col) != 0.0 && Reduced(n, m, col)
    ensures Reduced(n, ReduceColumn(n, m, col, p), col + 1)
  {
    hide ReduceColumn, Reduced;
    var t := ReduceColumn(n, m, col, p);
    forall c | 0 <= c <= col ensures Entry(t, col, c) == Delta(col, c) {
      ReducedPivotEntry(n, m, col, p, c);
    }
    forall r, c | 0 <= r < n && 0 <= c <= col ensures Entry(t, r, c) == Delta(r, c) {
      if r != col { ReducedEntry(n, m, col, p, r, c); }
    }
    ReducedByEntries(n, t, col + 1);
  }

  lemma ReducedByEntries(n: nat, t: Matrix, col: nat)
    requires forall r, c :: 0 <= r < n && 0 <= c < col ==> Entry(t, r, c) == Delta(r, c)
    ensures Reduced(n, t, col)
  {
  }

  lemma ReducedPivotEntry(n: nat, m: Matrix, col: nat, p: nat, c: nat)
    requires Rectangular(m, n, 2 * n) && col <= p < n && c <= col && Entry(m, p, col) != 0.0 && Reduced(n, m, col)
    ensures Entry(ReduceColumn(n, m, col, p), col, c) == Delta(col, c)
  {
    hide ReduceColumn;
    ReducedRow(n, m, col, p, col);
    if c < col { assert Entry(m, p, c) == Delta(p, c); }
    Rescale(m[p][c], Entry(m, p, col));
  }

  lemma ReducedEntry(n: nat, m: Matrix, col: nat, p: nat, r: nat, c: nat)
    requires Rectangular(m, n, 2 * n) && col <= p < n && r < n && r != col && c <= col && Reduced(n, m, col)
    requires Entry(m, p, col) != 0.0 && Entry(ReduceColumn(n, m, col, p), col, c) == Delta(col, c)
    ensures Entry(ReduceColumn(n, m, col, p), r, c) == Delta(r, c)
  {
    hide ReduceColumn;
    ReducedRow(n, m, col, p, r);
    var q := if r == p then col else r;
    if c < col { assert Entry(m, q, c) == Delta(q, c); }
  }

  /** On a vector that the new pivot row kills, every row acts as before, up to the swap. */
  lemma ReduceDot(n: nat, m: Matrix, col: nat, p: nat, r: nat, x: Vector)
    requires Rectangular(m, n, 2 * n) && col < n && p < n && r < n && Entry(m, p, col) != 0.0
    requires LeftDot(n, ReduceColumn(n, m, col, p)[col], x) == 0.0
    ensures LeftDot(n, ReduceColumn(n, m, col, p)[r], x) == LeftDot(n, m[if r == p then col else if r == col then p else r], x)
  {
    hide ReduceColumn, LeftDot, Combines, Entry;
    var pv, t := Entry(m, p, col), ReduceColumn(n, m, col, p);
    ReducedRow(n, m, col, p, r);
    CombinationDot(n, t[col], m[p], 1.0 / pv - 1.0, m[p], x);
    ZeroScaled(LeftDot(n, m[p], x), pv);
    if r != col {
      var q := if r == p then col else r;
      CombinationDot(n, t[r], m[q], -Entry(m, q, col), t[col], x);
      assert -Entry(m, q, col) * 0.0 == 0.0;
    }
  }

  lemma ZeroScaled(d: real, pv: real)
    requires pv != 0.0 && d + (1.0 / pv - 1.0) * d == 0.0
    ensures d == 0.0
  {
    Rescale(d, pv);
    assert d == (d / pv) * pv;
  }

  lemma ReduceActsLike(n: nat, m: Matrix, a: Matrix, col: nat, p: nat, x: Vector, s: nat)
    requires Rectangular(m, n, 2 * n) && col <= p < n && Entry(m, p, col) != 0.0 && ActsLike(n, m, a, col) && s < n
    requires Killed(n, ReduceColumn(n, m, col, p), col + 1, x)
    ensures Mirrored(n, ReduceColumn(n, m, col, p), a, x, s)
  {
    hide ReduceColumn, LeftDot, Image, Entry;
    var t := ReduceColumn(n, m, col, p);
    forall i | 0 <= i < col ensures LeftDot(n, m[i], x) == 0.0 {
      ReduceDot(n, m, col, p, i, x);
    }
    assert Killed(n, m, col, x);
    assert Mirrored(n, m, a, x, s);
    var r :| 0 <= r < |m| && LeftDot(n, m[r], x) == Image(a, x, s);
    var r' := if r == p then col else if r == col then p else r;
    ReduceDot(n, m, col, p, r', x);
    assert LeftDot(n, t[r'], x) == Image(a, x, s);
  }

  lemma ReduceProgress(n: nat, m: Matrix, a: Matrix, col: nat, p: nat)
    requires Progress(n, m, a, col) && col <= p < n && Entry(m, p, col) != 0.0
    ensures Progress(n, ReduceColumn(n, m, col, p), a, col + 1)
  {
    hide ReduceColumn, RowConsistent, Mirrored, Killed, Reduced, Entry;
    var t := ReduceColumn(n, m, col, p);
    ReduceKeepsReduced(n, m, col, p);
    forall r | 0 <= r < n ensures RowConsistent(n, t[r], a) { ReduceConsistent(n, m, a, col, p, r); }
    forall x: Vector, s: nat | Killed(n, t, col + 1, x) && s < n ensures Mirrored(n, t, a, x, s) {
      ReduceActsLike(n, m, a, col, p, x, s);
    }
  }

  /** Every stage keeps: finished columns, right half times a == left half, and how a acts. */
  lemma {:induction false} EliminateProgress(a: Matrix, col: nat)
    requires IsSquare(a) && col <= |a| && Eliminate(a, col).Some?
    ensures Progress(|a|, Eliminate(a, col).value, a, col)
  {
    hide Progress, ReduceColumn, Augment, Entry;
    if col == 0 {
      AugmentProgress(a);
    } else {
      EliminateProgress(a, col - 1);
      var m := Eliminate(a, col - 1).value;
      ReduceProgress(|a|, m, a, col - 1, PivotUpTo(m, col - 1, |a|));
    }
  }

  // ---- The result is a left inverse ---------------------------------------------------

  lemma RightHalfRow(n: nat, m: Matrix, a: Matrix, i: nat, j: nat)
    requires Progress(n, m, a, n) && i < n && j < n
    ensures RowTimes(n, Slice(Mat(RightHalf(n, m)), i), Mat(a))(j) == Delta(i, j)
  {
    var b := RightHalf(n, m);
    assert RowConsistent(n, m[i], a);
    assert Entry(m, i, j) == Delta(i, j);
    forall k | 0 <= k < n ensures Slice(Mat(b), i)(k) == Right(n, m[i])(k) {
      assert b[i][k] == m[i][n..][k] == m[i][n + k];
    }
    SameWeights(n, Slice(Mat(b), i), Right(n, m[i]), Slice(Flip(Mat(a)), j));
  }

  /** Whatever is returned, times a, is the identity. */
  lemma InverseIsLeftInverse(a: Matrix)
    requires IsSquare(a) && Inverse(a).Some?
    ensures IsInverse(|a|, Mat(Inverse(a).value), Mat(a))
  {
    hide Eliminate, Progress, Mat, RightHalf;
    EliminateProgress(a, |a|);
    var m := Eliminate(a, |a|).value;
    forall i, j | 0 <= i < |a| && 0 <= j < |a|
      ensures RowTimes(|a|, Slice(Mat(Inverse(a).value), i), Mat(a))(j) == Delta(i, j)
    {
      RightHalfRow(|a|, m, a, i, j);
    }
  }

  ghost predicate IsZero(y: Vector) {
    forall k :: 0 <= k < |y| ==> y[k] == 0.0
  }

  ghost predicate InKernel(a: Matrix, x: Vector) {
    forall k :: 0 <= k < |a| ==> Image(a, x, k) == 0.0
  }

  ghost predicate Singular(a: Matrix) {
    exists x: Vector :: |x| == |a| && !IsZero(x) && InKernel(a, x)
  }

  /** A singular matrix yields none. */
  lemma SingularYieldsNone(a: Matrix)
    requires IsSquare(a) && Singular(a)
    ensures Inverse(a).None?
  {
    hide Inverse;
    var x: Vector :| |x| == |a| && !IsZero(x) && InKernel(a, x);
    if Inverse(a).Some? {
      InverseIsLeftInverse(a);
      KernelIsZero(a, Inverse(a).value, x);
    }
  }

  lemma KernelIsZero(a: Matrix, b: Matrix, x: Vector)
    requires IsInverse(|a|, Mat(b), Mat(a)) && |x| == |a| && InKernel(a, x)
    ensures IsZero(x)
  {
    forall k | 0 <= k < |a| ensures TimesColumn(|a|, Mat(a), Vec(x))(k) == 0.0 {
      assert Image(a, x, k) == 0.0;
    }
    InvertibleHasNoKernel(|a|, Mat(b), Mat(a), Vec(x));
    forall k | 0 <= k < |a| ensures x[k] == 0.0 {
      assert Vec(x)(k) == 0.0;
    }
  }

  // ---- The vector that a stuck column exposes --------------------------------------------

  /** Minus the column above, 1 at col, 0 below. */
  function Witness(n: nat, m: Matrix, col: nat): (x: Vector)
    ensures |x| == n
    ensures col < n ==> x[col] == 1.0 && forall k :: col < k < n ==> x[k] == 0.0
  {
    seq(n, k => if k < col then -Entry(m, k, col) else if k == col then 1.0 else 0.0)
  }

  lemma WitnessDot(n: nat, m: Matrix, col: nat, r: nat)
    requires Rectangular(m, n, 2 * n) && Reduced(n, m, col) && col < n && r < n
    ensures LeftDot(n, m[r], Witness(n, m, col)) == if r < col then 0.0 else Entry(m, r, col)
  {
    var x := Witness(n, m, col);
    var own := (j: int) => if j == r && r < col then -Entry(m, r, col) else 0.0;
    var unit := (j: int) => if j == col then Entry(m, r, col) else 0.0;
    forall j | 0 <= j < n ensures Times(Vec(m[r]), Vec(x))(j) == own(j) + 1.0 * unit(j) {
      if j < col { assert Entry(m, r, j) == Delta(r, j); }
    }
    SumAxpy(n, Times(Vec(m[r]), Vec(x)), own, 1.0, unit);
    SumSingle(n, own, r);
    SumSingle(n, unit, col);
  }

  /** Every entry of a times the witness is 0 or a candidate pivot of the column. */
  lemma WitnessImage(n: nat, m: Matrix, a: Matrix, col: nat, s: nat)
    requires Progress(n, m, a, col) && col < n && s < n
    ensures var y := Image(a, Witness(n, m, col), s);
            y == 0.0 || exists r :: col <= r < n && y == Entry(m, r, col)
  {
    hide LeftDot, Image, Witness, RowConsistent, Reduced, Entry;
    var x := Witness(n, m, col);
    forall i | 0 <= i < col ensures LeftDot(n, m[i], x) == 0.0 { WitnessDot(n, m, col, i); }
    assert Killed(n, m, col, x);
    assert Mirrored(n, m, a, x, s);
    var r :| 0 <= r < |m| && LeftDot(n, m[r], x) == Image(a, x, s);
    WitnessDot(n, m, col, r);
  }

  /** x has a unit entry at col, zeros after it, and a maps it below the threshold everywhere. */
  ghost predicate NearKernel(a: Matrix, x: Vector, col: nat) {
    && |x| == |a| && col < |a| && x[col] == 1.0
    && (forall k :: col < k < |a| ==> x[k] == 0.0)
    && (forall s :: 0 <= s < |a| ==> Abs(Image(a, x, s)) < TINY)
  }

  lemma StuckHasNearKernel(a: Matrix, col: nat)
    requires IsSquare(a) && Stuck(a, col)
    ensures NearKernel(a, Witness(|a|, Eliminate(a, col).value, col), col)
  {
    hide Eliminate, Image, Entry, Progress, Witness;
    var n, m := |a|, Eliminate(a, col).value;
    EliminateProgress(a, col);
    forall s | 0 <= s < n ensures Abs(Image(a, Witness(n, m, col), s)) < TINY {
      WitnessImage(n, m, a, col, s);
    }
  }

  /** No result: some vector with a unit entry is mapped below the threshold by a itself. */
  lemma NoneHasNearKernel(a: Matrix)
    requires IsSquare(a) && Inverse(a).None?
    ensures exists x, col :: NearKernel(a, x, col)
  {
    hide Inverse, Stuck, NearKernel, Eliminate;
    NoneIffStuck(a);
    var col :| Stuck(a, col);
    StuckColumn(a, col);
    StuckHasNearKernel(a, col);
  }

  /** When the stuck column is exactly zero the matrix is singular. */
  lemma ZeroColumnIsSingular(a: Matrix, col: nat)
    requires IsSquare(a) && Stuck(a, col)
    requires forall r :: col <= r < |a| ==> Entry(Eliminate(a, col).value, r, col) == 0.0
    ensures Singular(a)
  {
    hide Eliminate, Image, Entry, Progress, Witness;
    var n, m := |a|, Eliminate(a, col).value;
    EliminateProgress(a, col);
    var x := Witness(n, m, col);
    forall s | 0 <= s < n ensures Image(a, x, s) == 0.0 {
      WitnessImage(n, m, a, col, s);
    }
    assert !IsZero(x) && InKernel(a, x);
  }

  // ---- Matrices that are always inverted -----------------------------------------------------

  ghost predicate EntriesAtMost(n: nat, b: Matrix, bound: real) {
    forall i, j :: 0 <= i < n && 0 <= j < n ==> Abs(Entry(b, i, j)) <= bound
  }

  lemma {:induction false} SumBelow(n: nat, f: int -> real, bound: real)
    requires n > 0 && forall i :: 0 <= i < n ==> Abs(f(i)) < bound
    ensures Abs(Sum(n, f)) < n as real * bound
  {
    hide Abs;
    assert Sum(n, f) == Sum(n - 1, f) + f(n - 1);
    OneMore(n - 1, bound);
    if n > 1 {
      SumBelow(n - 1, f, bound);
      AbsOfSum(Sum(n - 1, f), f(n - 1), (n - 1) as real * bound, bound);
    }
  }

  lemma AbsOfSum(x: real, y: real, p: real, q: real)
    requires Abs(x) < p && Abs(y) < q
    ensures Abs(x + y) < p + q
  {
  }

  lemma OneMore(n: int, bound: real)
    ensures (n + 1) as real * bound == n as real * bound + bound
  {
  }

  lemma AbsOfProduct(x: real, y: real)
    ensures Abs(x * y) == Abs(x) * Abs(y)
  {
    assert (-x) * y == -(x * y) && x * (-y) == -(x * y) && (-x) * (-y) == x * y;
  }

  lemma ProductBelow(x: real, y: real, bound: real)
    requires bound > 0.0 && Abs(x) <= bound && Abs(y) < TINY
    ensures Abs(x * y) < bound * TINY
  {
    AbsOfProduct(x, y);
    var u, v := Abs(x), Abs(y);
    ProductChain(u, v, bound, u * v);
  }

  lemma ProductChain(u: real, v: real, bound: real, p: real)
    requires 0.0 <= u <= bound && 0.0 <= v < TINY && bound > 0.0 && p == u * v
    ensures p < bound * TINY
  {
    NonNegativeTimes(bound - u, v, bound * v - p);
    PositiveTimes(TINY - v, bound, TINY * bound - bound * v);
  }

  lemma NonNegativeTimes(x: real, y: real, z: real)
    requires x >= 0.0 && y >= 0.0 && z == x * y
    ensures z >= 0.0
  {
  }

  lemma PositiveTimes(x: real, y: real, z: real)
    requires x > 0.0 && y > 0.0 && z == x * y
    ensures z > 0.0
  {
  }

  /** A vector that a maps below the threshold forces a large entry in every left inverse. */
  lemma NearKernelNeedsLargeEntry(a: Matrix, b: Matrix, x: Vector, col: nat, bound: real)
    requires IsInverse(|a|, Mat(b), Mat(a)) && NearKernel(a, x, col)
    requires bound > 0.0 && |a| as real * (bound * TINY) <= 1.0
    ensures !EntriesAtMost(|a|, b, bound)
  {
    hide Entry, Sum;
    var n := |a|;
    InverseUndoes(n, Mat(b), Mat(a), Vec(x), col);
    var f := Times(Slice(Mat(b), col), TimesColumn(n, Mat(a), Vec(x)));
    assert Vec(x)(col) == 1.0;
    if EntriesAtMost(n, b, bound) {
      forall i | 0 <= i < n ensures Abs(f(i)) < bound * TINY {
        assert Abs(Image(a, x, i)) < TINY;
        ProductBelow(Entry(b, col, i), Image(a, x, i), bound);
      }
      SumBelow(n, f, bound * TINY);
    }
  }

  /** A matrix whose inverse has no entry above 1 / (n * 1e-12) is always inverted. */
  lemma ModerateInverseIsFound(a: Matrix, b: Matrix, bound: real)
    requires IsSquare(a) && IsInverse(|a|, Mat(b), Mat(a)) && EntriesAtMost(|a|, b, bound)
    requires bound > 0.0 && |a| as real * (bound * TINY) <= 1.0
    ensures Inverse(a).Some?
  {
    hide Inverse, EntriesAtMost, NearKernel, IsInverse, Mat;
    if Inverse(a).None? {
      NoneHasNearKernel(a);
      var x, col :| NearKernel(a, x, col);
      NearKernelNeedsLargeEntry(a, b, x, col, bound);
    }
  }

  // ---- An invertible matrix that is turned away --------------------------------------------------

  const SMALL: Matrix := [[0.0000000000001]]

  /** The threshold also turns away invertible matrices: 1e-13 has the inverse 1e13. */
  lemma InvertibleTurnedAway()
    ensures IsSquare(SMALL) && Inverse(SMALL).None?
    ensures IsInverse(1, Mat([[10000000000000.0]]), Mat(SMALL))
  {
    assert Augment(SMALL)[0][0] == 0.0000000000001;
    assert Eliminate(SMALL, 0) == Some(Augment(SMALL));
    assert Entry(Augment(SMALL), 0, 0) < TINY;
    var b := Mat([[10000000000000.0]]);
    SumSingle(1, Times(Slice(b, 0), Slice(Flip(Mat(SMALL)), 0)), 0);
  }
}
