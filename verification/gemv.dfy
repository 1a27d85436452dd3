/** Dense matrix-vector update `y := alpha * A x + beta * y`
    (numba-cuda/src/matvec.py): the loop version `gemv_v1`, the array
    expression `gemv_v2`, the per-thread body of the CUDA kernel `_gemv_cuda`
    and the block count of the launch in `gemv_v3`. Parallel loops and kernel
    threads are modelled as running one index after the other. */
module Gemv {
  import opened Vectors

  /** Threads per block of the CUDA launch. */
  const BlockSize: nat := 128

  /** Row i of a two-dimensional array. */
  function RowOf(A: array2<real>, i: nat): (row: seq<real>)
    requires i < A.Length0
    reads A
    ensures |row| == A.Length1
    ensures forall j :: 0 <= j < A.Length1 ==> row[j] == A[i, j]
  {
    seq(A.Length1, j requires 0 <= j < A.Length1 reads A => A[i, j])
  }

  /** The array's entries as a sequence of rows. */
  function Entries(A: array2<real>): (m: seq<seq<real>>)
    reads A
    ensures |m| == A.Length0
    ensures forall i :: 0 <= i < A.Length0 ==> m[i] == RowOf(A, i)
  {
    seq(A.Length0, i requires 0 <= i < A.Length0 reads A => RowOf(A, i))
  }

  /** The matrix product `A @ x`. */
  function MatVec(m: seq<seq<real>>, x: seq<real>): (v: seq<real>)
    requires IsMatrix(m, |x|)
    ensures |v| == |m|
  {
    seq(|m|, i requires 0 <= i < |m| => Dot(m[i], x))
  }

  /** Scalar times vector, `c * v`. */
  function Scale(c: real, v: seq<real>): (w: seq<real>)
    ensures |w| == |v|
  {
    seq(|v|, k requires 0 <= k < |v| => c * v[k])
  }

  /** Elementwise sum of two vectors of the same length. */
  function Add(u: seq<real>, v: seq<real>): (w: seq<real>)
    requires |u| == |v|
    ensures |w| == |u|
  {
    seq(|u|, k requires 0 <= k < |u| => u[k] + v[k])
  }

  /** `gemv_v2`: the expression `alpha * (A @ x) + beta * y`, which is also
      the reference the driver validates every version against. It has one
      entry per row of A, and entry i is the scaled row product plus the
      scaled old entry. */
  function GemvV2(alpha: real, m: seq<seq<real>>, x: seq<real>, beta: real, y: seq<real>): (w: seq<real>)
    requires IsMatrix(m, |x|) && |y| == |m|
    ensures |w| == |m|
    ensures forall i :: 0 <= i < |m| ==> w[i] == alpha * Dot(m[i], x) + beta * y[i]
  {
    Add(Scale(alpha, MatVec(m, x)), Scale(beta, y))
  }

  /** Entry i of the update: `alpha * (row i of A . x) + beta * y_i`, where
      x is cut to the column count of A. */
  function Updated(alpha: real, A: array2<real>, x: seq<real>, beta: real, yi: real, i: nat): real
    requires i < A.Length0 && |x| >= A.Length1
    reads A
  {
    alpha * Dot(RowOf(A, i), x[..A.Length1]) + beta * yi
  }

  /** A vector holding the update in every entry is the value of the
      `gemv_v2` expression: the loop and kernel versions agree with it. */
  lemma UpdatedIsGemvV2(alpha: real, A: array2<real>, x: seq<real>, beta: real, y: seq<real>, r: seq<real>)
    requires |x| == A.Length1 && |y| == A.Length0 && |r| == A.Length0
    requires forall i :: 0 <= i < |r| ==> r[i] == Updated(alpha, A, x, beta, y[i], i)
    ensures IsMatrix(Entries(A), |x|) && r == GemvV2(alpha, Entries(A), x, beta, y)
  {
    assert x[..A.Length1] == x;
    assert forall i :: 0 <= i < |r| ==> r[i] == GemvV2(alpha, Entries(A), x, beta, y)[i];
  }

  /** The inner loop shared by `gemv_v1` and the kernel: `prod` starts at
      zero and adds `A[i, j] * x[j]` for j = 0 .. M - 1. */
  method RowProduct(A: array2<real>, x: array<real>, i: nat) returns (prod: real)
    requires i < A.Length0 && x.Length >= A.Length1
    ensures prod == Dot(RowOf(A, i), x[..A.Length1])
  {
    var m := A.Length1;
    ghost var row, xs := RowOf(A, i), x[..m];
    prod := 0.0;
    for j := 0 to m
      invariant prod == Dot(row[..j], xs[..j])
    {
      assert row[..j + 1][..j] == row[..j] && xs[..j + 1][..j] == xs[..j];
      prod := prod + A[i, j] * x[j];
    }
    assert row[..m] == row && xs[..m] == xs;
  }

  /** `gemv_v1`: for each row, compute the row product and store
      `alpha * prod + beta * y[i]` in a fresh vector of length N, the row
      count of A; A, x and y are only read. */
  method GemvV1(alpha: real, A: array2<real>, x: array<real>, beta: real, y: array<real>)
    returns (yRet: array<real>)
    requires x.Length >= A.Length1 && y.Length >= A.Length0
    ensures fresh(yRet) && yRet.Length == A.Length0
    ensures forall i :: 0 <= i < A.Length0 ==> yRet[i] == Updated(alpha, A, x[..], beta, y[i], i)
    ensures x.Length == A.Length1 && y.Length == A.Length0 ==>
      IsMatrix(Entries(A), x.Length) && yRet[..] == GemvV2(alpha, Entries(A), x[..], beta, y[..])
  {
    var n := A.Length0;
    yRet := new real[n];
    for i := 0 to n
      invariant forall i' :: 0 <= i' < i ==> yRet[i'] == Updated(alpha, A, x[..], beta, y[i'], i')
    {
      var prod := RowProduct(A, x, i);
      yRet[i] := alpha * prod + beta * y[i];
    }
    if x.Length == A.Length1 && y.Length == n {
      UpdatedIsGemvV2(alpha, A, x[..], beta, y[..], yRet[..]);
    }
  }

  /** Body of the CUDA kernel for thread index i: threads past the last row
      return at once; thread i < N overwrites y[i] with
      `alpha * (row i . x) + beta * y[i]` and touches nothing else. */
  method GemvKernel(alpha: real, A: array2<real>, x: array<real>, beta: real, y: array<real>, i: nat)
    requires x.Length >= A.Length1 && y.Length >= A.Length0
    modifies y
    ensures i >= A.Length0 ==> y[..] == old(y[..])
    ensures i < A.Length0 ==>
      y[..] == old(y[..])[i := Updated(alpha, A, old(x[..]), beta, old(y[i]), i)]
  {
    if i >= A.Length0 {
      return;
    }
    var prod := RowProduct(A, x, i);
    ghost var want := Updated(alpha, A, x[..], beta, y[i], i);
    assert prod == Dot(RowOf(A, i), x[..][..A.Length1]);
    y[i] := alpha * prod + beta * y[i];
    assert y[i] == want;
  }

  /** Number of thread blocks launched for N rows: `N // BLOCK_SIZE`, plus one
      when the division leaves a remainder. */
  function BlockCount(n: nat): (nb: nat)
    ensures nb * BlockSize >= n
    ensures (nb - 1) * BlockSize < n
  {
    var nb := n / BlockSize;
    if n % BlockSize != 0 then nb + 1 else nb
  }

  /** The block count is the ceiling of N / BLOCK_SIZE: the least number of
      blocks whose threads cover every row. */
  lemma BlockCountIsLeast(n: nat, k: nat)
    requires k * BlockSize >= n
    ensures BlockCount(n) <= k
  {
  }

  /** `gemv_v3` without device transfers and timing: copy y to the device,
      launch `BlockCount(N) * BLOCK_SIZE` kernel threads (run here one after
      the other) and return the device copy. The caller's y is untouched. */
  method GemvV3(alpha: real, A: array2<real>, x: array<real>, beta: real, y: array<real>)
    returns (yRet: array<real>)
    requires x.Length >= A.Length1 && y.Length >= A.Length0
    ensures fresh(yRet) && yRet.Length == y.Length
    ensures forall i :: 0 <= i < A.Length0 ==> yRet[i] == Updated(alpha, A, x[..], beta, y[i], i)
    ensures forall i :: A.Length0 <= i < y.Length ==> yRet[i] == y[i]
    ensures x.Length == A.Length1 && y.Length == A.Length0 ==>
      IsMatrix(Entries(A), x.Length) && yRet[..] == GemvV2(alpha, Entries(A), x[..], beta, y[..])
  {
    var n := A.Length0;
    var dY := new real[y.Length](k requires 0 <= k < y.Length reads y => y[k]);
    var nb := BlockCount(n);
    for t := 0 to nb * BlockSize
      invariant forall k :: 0 <= k < y.Length ==>
        dY[k] == if k < t && k < n then Updated(alpha, A, x[..], beta, y[k], k) else y[k]
    {
      GemvKernel(alpha, A, x, beta, dY, t);
    }
    yRet := dY;
    if x.Length == A.Length1 && y.Length == n {
      UpdatedIsGemvV2(alpha, A, x[..], beta, y[..], yRet[..]);
    }
  }
}
