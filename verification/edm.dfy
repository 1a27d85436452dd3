/** Squared-Euclidean distance matrices between the rows of x (N x d) and the
    rows of y (M x d), in the two families of numpy formulas the repository
    uses:
    - broadcast: `diff = x[:, newaxis, :] - y[newaxis, :, :]`, reduced either
      with `einsum('ijk,ijk->ij', diff, diff)` or with `(diff * diff).sum(axis=2)`;
    - "trick": `|x2 + y2 - 2 x y^T|` with row norms `x2` as a column and `y2`
      as a row.
    Arrays are sequences of rows; entries are exact reals, so the model makes
    no claim about rounding. */
module Edm {
  import opened Vectors

  /** The result shape: one row per row of x, one column per row of y. */
  predicate HasShape(r: seq<seq<real>>, rows: nat, cols: nat)
  {
    |r| == rows && IsMatrix(r, cols)
  }

  /** The squared Euclidean distance matrix the docstrings promise:
      entry (i, j) is the sum over k of (x[i][k] - y[j][k])^2. */
  function SqDistMatrix(x: seq<seq<real>>, y: seq<seq<real>>, d: nat): (r: seq<seq<real>>)
    requires IsMatrix(x, d) && IsMatrix(y, d)
    ensures HasShape(r, |x|, |y|)
    ensures forall i, j :: 0 <= i < |x| && 0 <= j < |y| ==> r[i][j] >= 0.0
  {
    seq(|x|, i requires 0 <= i < |x| =>
      seq(|y|, j requires 0 <= j < |y| => SqDist(x[i], y[j])))
  }

  lemma MatrixExt(a: seq<seq<real>>, b: seq<seq<real>>)
    requires |a| == |b| && forall i :: 0 <= i < |a| ==> |a[i]| == |b[i]|
    requires forall i, j :: 0 <= i < |a| && 0 <= j < |a[i]| ==> a[i][j] == b[i][j]
    ensures a == b
  {
    forall i | 0 <= i < |a|
      ensures a[i] == b[i]
    {
      assert forall j :: 0 <= j < |a[i]| ==> a[i][j] == b[i][j];
    }
  }

  // ----- Broadcast family -----------------------------------------------

  /** `x[:, newaxis, :] - y[newaxis, :, :]`: an N x M x d tensor whose (i, j)
      fibre is row i of x minus row j of y. */
  function BroadcastDiff(x: seq<seq<real>>, y: seq<seq<real>>, d: nat): (t: seq<seq<seq<real>>>)
    requires IsMatrix(x, d) && IsMatrix(y, d)
    ensures |t| == |x|
    ensures forall i :: 0 <= i < |x| ==> |t[i]| == |y|
    ensures forall i, j :: 0 <= i < |x| && 0 <= j < |y| ==> t[i][j] == Diff(x[i], y[j])
  {
    seq(|x|, i requires 0 <= i < |x| =>
      seq(|y|, j requires 0 <= j < |y| => Diff(x[i], y[j])))
  }

  /** `einsum('ijk,ijk->ij', a, b)`: for each (i, j), the inner product of the
      two k-fibres. */
  function EinsumIjkIjk(a: seq<seq<seq<real>>>, b: seq<seq<seq<real>>>, rows: nat, cols: nat, d: nat)
    : (r: seq<seq<real>>)
    requires |a| == |b| == rows
    requires forall i :: 0 <= i < rows ==> |a[i]| == |b[i]| == cols
    requires forall i, j :: 0 <= i < rows && 0 <= j < cols ==> |a[i][j]| == |b[i][j]| == d
    ensures HasShape(r, rows, cols)
  {
    seq(rows, i requires 0 <= i < rows =>
      seq(cols, j requires 0 <= j < cols => Dot(a[i][j], b[i][j])))
  }

  /** `a * b` on two tensors of the same shape. */
  function TensorProduct(a: seq<seq<seq<real>>>, b: seq<seq<seq<real>>>, rows: nat, cols: nat, d: nat)
    : (t: seq<seq<seq<real>>>)
    requires |a| == |b| == rows
    requires forall i :: 0 <= i < rows ==> |a[i]| == |b[i]| == cols
    requires forall i, j :: 0 <= i < rows && 0 <= j < cols ==> |a[i][j]| == |b[i][j]| == d
    ensures |t| == rows
    ensures forall i :: 0 <= i < rows ==> |t[i]| == cols
    ensures forall i, j :: 0 <= i < rows && 0 <= j < cols ==> t[i][j] == Hadamard(a[i][j], b[i][j])
  {
    seq(rows, i requires 0 <= i < rows =>
      seq(cols, j requires 0 <= j < cols => Hadamard(a[i][j], b[i][j])))
  }

  /** `.sum(axis=2)` of a rows x cols x d tensor. */
  function SumAxis2(t: seq<seq<seq<real>>>, rows: nat, cols: nat): (r: seq<seq<real>>)
    requires |t| == rows && forall i :: 0 <= i < rows ==> |t[i]| == cols
    ensures HasShape(r, rows, cols)
  {
    seq(rows, i requires 0 <= i < rows =>
      seq(cols, j requires 0 <= j < cols => Sum(t[i][j])))
  }

  /** `euclidean_broadcast` of numpy/solutions/edm-broadcast-einsum.py. */
  function EuclideanBroadcastEinsum(x: seq<seq<real>>, y: seq<seq<real>>, d: nat): (r: seq<seq<real>>)
    requires IsMatrix(x, d) && IsMatrix(y, d)
    ensures HasShape(r, |x|, |y|)
  {
    var diff := BroadcastDiff(x, y, d);
    EinsumIjkIjk(diff, diff, |x|, |y|, d)
  }

  /** `euclidean_broadcast` of profiling/05_lineprofiler.py. */
  function EuclideanBroadcastSum(x: seq<seq<real>>, y: seq<seq<real>>, d: nat): (r: seq<seq<real>>)
    requires IsMatrix(x, d) && IsMatrix(y, d)
    ensures HasShape(r, |x|, |y|)
  {
    var diff := BroadcastDiff(x, y, d);
    SumAxis2(TensorProduct(diff, diff, |x|, |y|, d), |x|, |y|)
  }

  /** The einsum reduction computes the squared distance matrix, so every
      entry is non-negative. */
  lemma EinsumIsSqDistMatrix(x: seq<seq<real>>, y: seq<seq<real>>, d: nat)
    requires IsMatrix(x, d) && IsMatrix(y, d)
    ensures EuclideanBroadcastEinsum(x, y, d) == SqDistMatrix(x, y, d)
  {
    var r, s := EuclideanBroadcastEinsum(x, y, d), SqDistMatrix(x, y, d);
    forall i, j | 0 <= i < |x| && 0 <= j < |y|
      ensures r[i][j] == s[i][j]
    {
      DotDiffIsSqDist(x[i], y[j]);
    }
    MatrixExt(r, s);
  }

  /** The `.sum(axis=2)` reduction computes the same matrix. */
  lemma SumIsSqDistMatrix(x: seq<seq<real>>, y: seq<seq<real>>, d: nat)
    requires IsMatrix(x, d) && IsMatrix(y, d)
    ensures EuclideanBroadcastSum(x, y, d) == SqDistMatrix(x, y, d)
    ensures EuclideanBroadcastSum(x, y, d) == EuclideanBroadcastEinsum(x, y, d)
  {
    var r, s := EuclideanBroadcastSum(x, y, d), SqDistMatrix(x, y, d);
    forall i, j | 0 <= i < |x| && 0 <= j < |y|
      ensures r[i][j] == s[i][j]
    {
      var u := Diff(x[i], y[j]);
      SumHadamardIsDot(u, u);
      DotDiffIsSqDist(x[i], y[j]);
    }
    MatrixExt(r, s);
    EinsumIsSqDistMatrix(x, y, d);
  }

  /** Distances from a set of rows to itself: symmetric, zero diagonal. */
  lemma {:induction false} SqDistMatrixSelf(x: seq<seq<real>>, d: nat)
    requires IsMatrix(x, d)
    ensures forall i, j :: 0 <= i < |x| && 0 <= j < |x| ==>
      SqDistMatrix(x, x, d)[i][j] == SqDistMatrix(x, x, d)[j][i] &&
      SqDistMatrix(x, x, d)[i][i] == 0.0
  {
    forall i, j | 0 <= i < |x| && 0 <= j < |x|
      ensures SqDistMatrix(x, x, d)[i][j] == SqDistMatrix(x, x, d)[j][i] &&
        SqDistMatrix(x, x, d)[i][i] == 0.0
    {
      SqDistSymmetric(x[i], x[j]);
      SqDistSelf(x[i]);
    }
  }

  /** Both broadcast forms, called with x for y, give a symmetric matrix
      with a zero diagonal and no negative entry. */
  lemma BroadcastSelfSymmetric(x: seq<seq<real>>, d: nat)
    requires IsMatrix(x, d)
    ensures forall i, j :: 0 <= i < |x| && 0 <= j < |x| ==>
      EuclideanBroadcastEinsum(x, x, d)[i][j] == EuclideanBroadcastEinsum(x, x, d)[j][i] &&
      EuclideanBroadcastEinsum(x, x, d)[i][i] == 0.0 &&
      EuclideanBroadcastEinsum(x, x, d)[i][j] >= 0.0 &&
      EuclideanBroadcastSum(x, x, d)[i][j] == EuclideanBroadcastEinsum(x, x, d)[i][j]
  {
    SumIsSqDistMatrix(x, x, d);
    SqDistMatrixSelf(x, d);
  }

  // ----- "Trick" family -------------------------------------------------

  /** `einsum('ij,ij->i', x, x)`: the squared norm of every row. */
  function RowNorms(x: seq<seq<real>>): (v: seq<real>)
    ensures |v| == |x|
  {
    seq(|x|, i requires 0 <= i < |x| => Dot(x[i], x[i]))
  }

  /** `v[:, newaxis]`: an n x 1 column. */
  function Column(v: seq<real>): (c: seq<seq<real>>)
    ensures HasShape(c, |v|, 1)
  {
    seq(|v|, i requires 0 <= i < |v| => [v[i]])
  }

  /** `v[newaxis, :]`: a 1 x n row. */
  function RowVector(v: seq<real>): (r: seq<seq<real>>)
    ensures HasShape(r, 1, |v|)
  {
    [v]
  }

  /** `m.T` for an m with `cols` columns. */
  function Transpose(m: seq<seq<real>>, cols: nat): (t: seq<seq<real>>)
    requires IsMatrix(m, cols)
    ensures HasShape(t, cols, |m|)
    ensures forall j, i :: 0 <= j < cols && 0 <= i < |m| ==> t[j][i] == m[i][j]
  {
    seq(cols, j requires 0 <= j < cols =>
      seq(|m|, i requires 0 <= i < |m| => m[i][j]))
  }

  /** Column j of a matrix with `cols` columns. */
  function ColumnOf(m: seq<seq<real>>, cols: nat, j: nat): (c: seq<real>)
    requires IsMatrix(m, cols) && j < cols
    ensures |c| == |m|
  {
    seq(|m|, k requires 0 <= k < |m| => m[k][j])
  }

  /** `a @ b` (equally `np.dot(a, b)` for two-dimensional arrays):
      entry (i, j) is row i of a times column j of b. */
  function MatMul(a: seq<seq<real>>, b: seq<seq<real>>, cols: nat): (p: seq<seq<real>>)
    requires IsMatrix(a, |b|) && IsMatrix(b, cols)
    ensures HasShape(p, |a|, cols)
  {
    seq(|a|, i requires 0 <= i < |a| =>
      seq(cols, j requires 0 <= j < cols => Dot(a[i], ColumnOf(b, cols, j))))
  }

  /** `c + r` for an n x 1 column c and a 1 x m row r: numpy broadcasting
      stretches the column across and the row down to an n x m result. */
  function BroadcastAdd(c: seq<seq<real>>, r: seq<seq<real>>, n: nat, m: nat): (s: seq<seq<real>>)
    requires HasShape(c, n, 1) && HasShape(r, 1, m)
    ensures HasShape(s, n, m)
    ensures forall i, j :: 0 <= i < n && 0 <= j < m ==> s[i][j] == c[i][0] + r[0][j]
  {
    seq(n, i requires 0 <= i < n =>
      seq(m, j requires 0 <= j < m => c[i][0] + r[0][j]))
  }

  /** `a - k * b` on two n x m arrays. */
  function SubScaled(a: seq<seq<real>>, k: real, b: seq<seq<real>>, n: nat, m: nat): (s: seq<seq<real>>)
    requires HasShape(a, n, m) && HasShape(b, n, m)
    ensures HasShape(s, n, m)
  {
    seq(n, i requires 0 <= i < n =>
      seq(m, j requires 0 <= j < m => a[i][j] - k * b[i][j]))
  }

  /** `np.abs` elementwise. */
  function AbsAll(a: seq<seq<real>>, n: nat, m: nat): (s: seq<seq<real>>)
    requires HasShape(a, n, m)
    ensures HasShape(s, n, m)
  {
    seq(n, i requires 0 <= i < n =>
      seq(m, j requires 0 <= j < m => Abs(a[i][j])))
  }

  /** `x2 + y2 - 2. * xy` before the absolute value, from the column of row
      norms of x, the row of row norms of y and the product x y^T. */
  function TrickBeforeAbs(x2: seq<seq<real>>, y2: seq<seq<real>>, x: seq<seq<real>>, y: seq<seq<real>>, d: nat)
    : (s: seq<seq<real>>)
    requires IsMatrix(x, d) && IsMatrix(y, d)
    requires HasShape(x2, |x|, 1) && HasShape(y2, 1, |y|)
    ensures HasShape(s, |x|, |y|)
  {
    SubScaled(BroadcastAdd(x2, y2, |x|, |y|), 2.0, MatMul(x, Transpose(y, d), |y|), |x|, |y|)
  }

  /** `euclidean_trick` of profiling/04_lineprofiler.py and of its copy in
      profiling/02_memprofiler.py, and `euclidean_numpy` of
      f2py/distance-f90/test_edm.py (`np.dot(x, y.T)` there is the same
      matrix product as `x @ y.T`). */
  function EuclideanTrick(x: seq<seq<real>>, y: seq<seq<real>>, d: nat): (r: seq<seq<real>>)
    requires IsMatrix(x, d) && IsMatrix(y, d)
    ensures HasShape(r, |x|, |y|)
  {
    var x2 := Column(RowNorms(x));
    var y2 := RowVector(RowNorms(y));
    AbsAll(TrickBeforeAbs(x2, y2, x, y, d), |x|, |y|)
  }

  /** `euclidean_numpy` of f2py/distance-f90-pythonized/test_edm.py, which
      builds the row of norms of y as `[:, newaxis].T`. */
  function EuclideanNumpyPythonized(x: seq<seq<real>>, y: seq<seq<real>>, d: nat): (r: seq<seq<real>>)
    requires IsMatrix(x, d) && IsMatrix(y, d)
    ensures HasShape(r, |x|, |y|)
  {
    var x2 := Column(RowNorms(x));
    var y2 := Transpose(Column(RowNorms(y)), 1);
    AbsAll(TrickBeforeAbs(x2, y2, x, y, d), |x|, |y|)
  }

  /** Row i of x times column j of y^T is the inner product of row i of x
      with row j of y. */
  lemma ProductWithTranspose(x: seq<seq<real>>, y: seq<seq<real>>, d: nat, i: nat, j: nat)
    requires IsMatrix(x, d) && IsMatrix(y, d) && i < |x| && j < |y|
    ensures MatMul(x, Transpose(y, d), |y|)[i][j] == Dot(x[i], y[j])
  {
    assert ColumnOf(Transpose(y, d), |y|, j) == y[j];
  }

  /** Before the absolute value, entry (i, j) of the trick expression is
      |x_i|^2 + |y_j|^2 - 2 x_i . y_j, and that is the squared distance between
      row i of x and row j of y: the column x2 contributes row i, the row y2
      contributes row j. */
  lemma TrickBeforeAbsAt(x: seq<seq<real>>, y: seq<seq<real>>, d: nat, i: nat, j: nat)
    requires IsMatrix(x, d) && IsMatrix(y, d) && i < |x| && j < |y|
    ensures TrickBeforeAbs(Column(RowNorms(x)), RowVector(RowNorms(y)), x, y, d)[i][j]
      == Dot(x[i], x[i]) + Dot(y[j], y[j]) - 2.0 * Dot(x[i], y[j])
      == SqDist(x[i], y[j])
  {
    ProductWithTranspose(x, y, d, i, j);
    NormExpansion(x[i], y[j]);
  }

  /** Over exact reals the absolute value changes nothing: the expression
      inside it is already the squared distance, which is non-negative. */
  lemma TrickAbsIsNoOp(x: seq<seq<real>>, y: seq<seq<real>>, d: nat)
    requires IsMatrix(x, d) && IsMatrix(y, d)
    ensures EuclideanTrick(x, y, d) == TrickBeforeAbs(Column(RowNorms(x)), RowVector(RowNorms(y)), x, y, d)
  {
    var inner := TrickBeforeAbs(Column(RowNorms(x)), RowVector(RowNorms(y)), x, y, d);
    var r := EuclideanTrick(x, y, d);
    forall i, j | 0 <= i < |x| && 0 <= j < |y|
      ensures r[i][j] == inner[i][j]
    {
      TrickBeforeAbsAt(x, y, d, i, j);
    }
    MatrixExt(r, inner);
  }

  /** The trick form computes the squared Euclidean distance matrix. */
  lemma TrickIsSqDistMatrix(x: seq<seq<real>>, y: seq<seq<real>>, d: nat)
    requires IsMatrix(x, d) && IsMatrix(y, d)
    ensures EuclideanTrick(x, y, d) == SqDistMatrix(x, y, d)
  {
    var r, s := EuclideanTrick(x, y, d), SqDistMatrix(x, y, d);
    forall i, j | 0 <= i < |x| && 0 <= j < |y|
      ensures r[i][j] == s[i][j]
    {
      TrickBeforeAbsAt(x, y, d, i, j);
    }
    MatrixExt(r, s);
  }

  /** Called with x for y, as the timing script does, the trick form gives a
      symmetric matrix with a zero diagonal and no negative entry. */
  lemma TrickSelfSymmetric(x: seq<seq<real>>, d: nat)
    requires IsMatrix(x, d)
    ensures forall i, j :: 0 <= i < |x| && 0 <= j < |x| ==>
      EuclideanTrick(x, x, d)[i][j] == EuclideanTrick(x, x, d)[j][i] &&
      EuclideanTrick(x, x, d)[i][i] == 0.0 &&
      EuclideanTrick(x, x, d)[i][j] >= 0.0
  {
    TrickIsSqDistMatrix(x, x, d);
    SqDistMatrixSelf(x, d);
  }

  /** `v[:, newaxis].T` is the same 1 x n row as `v[newaxis, :]`, so the
      pythonized variant returns exactly the trick-form matrix. */
  lemma PythonizedEqualsTrick(x: seq<seq<real>>, y: seq<seq<real>>, d: nat)
    requires IsMatrix(x, d) && IsMatrix(y, d)
    ensures Transpose(Column(RowNorms(y)), 1) == RowVector(RowNorms(y))
    ensures EuclideanNumpyPythonized(x, y, d) == EuclideanTrick(x, y, d)
    ensures EuclideanNumpyPythonized(x, y, d) == SqDistMatrix(x, y, d)
  {
    var v := RowNorms(y);
    assert Transpose(Column(v), 1)[0] == v;
    MatrixExt(Transpose(Column(v), 1), RowVector(v));
    TrickIsSqDistMatrix(x, y, d);
  }
}
