/** The city-block distance matrix kernel `cbdm` (cffi/code-version/cityblock.c).
    `a` and `b` hold `num_rows` samples of `num_cols` features each, row-major;
    the kernel writes the `num_rows x num_rows` matrix of L1 distances between
    the rows of `a` and the rows of `b` into `r`, also row-major. */
module CityBlock {
  import opened Vectors
  import opened Layout

  /** Row i of a row-major buffer with `width` entries per row. */
  function Row(a: seq<real>, width: nat, i: nat): (row: seq<real>)
    requires Flat(i, width, width) <= |a|
    ensures |row| == width
    ensures forall k :: 0 <= k < width ==> row[k] == a[Flat(i, k, width)]
  {
    a[Flat(i, 0, width)..Flat(i, width, width)]
  }

  /** Entry (i, j) of the distance matrix: the L1 distance between row i of
      `a` and row j of `b`. */
  function Distance(a: seq<real>, b: seq<real>, numCols: nat, i: nat, j: nat): real
    requires Flat(i, numCols, numCols) <= |a| && Flat(j, numCols, numCols) <= |b|
  {
    L1Dist(Row(a, numCols, i), Row(b, numCols, j))
  }

  /** Both inputs hold at least `numRows` rows of `numCols` features. */
  predicate Fits(a: seq<real>, b: seq<real>, numRows: nat, numCols: nat)
  {
    numRows * numCols <= |a| && numRows * numCols <= |b|
  }

  /** Row i of `a` and row j of `b` lie inside their buffers. */
  predicate RowsInside(a: seq<real>, b: seq<real>, numCols: nat, i: nat, j: nat)
  {
    Flat(i, numCols, numCols) <= |a| && Flat(j, numCols, numCols) <= |b|
  }

  lemma RowsFit(a: seq<real>, b: seq<real>, numRows: nat, numCols: nat, i: nat, j: nat)
    requires Fits(a, b, numRows, numCols) && i < numRows && j < numRows
    ensures Flat(i, numCols, numCols) <= |a| && Flat(j, numCols, numCols) <= |b|
  {
    MulLe(i + 1, numRows, numCols);
    MulLe(j + 1, numRows, numCols);
  }

  /** Every entry of the distance matrix is non-negative; with no features
      every entry is zero, because each entry starts from a fresh sum. */
  lemma {:induction false} DistanceBounds(a: seq<real>, b: seq<real>, numRows: nat, numCols: nat)
    requires Fits(a, b, numRows, numCols)
    ensures forall i: nat, j: nat :: i < numRows && j < numRows ==>
      RowsInside(a, b, numCols, i, j) && Distance(a, b, numCols, i, j) >= 0.0 &&
      (numCols == 0 ==> Distance(a, b, numCols, i, j) == 0.0)
  {
    forall i: nat, j: nat | i < numRows && j < numRows
      ensures RowsInside(a, b, numCols, i, j) && Distance(a, b, numCols, i, j) >= 0.0 &&
        (numCols == 0 ==> Distance(a, b, numCols, i, j) == 0.0)
    {
      RowsFit(a, b, numRows, numCols, i, j);
    }
  }

  /** Called with the same buffer twice, as the test script does, the matrix is
      symmetric and its diagonal is zero. */
  lemma {:induction false} SameBufferSymmetric(a: seq<real>, numRows: nat, numCols: nat)
    requires Fits(a, a, numRows, numCols)
    ensures forall i: nat, j: nat :: i < numRows && j < numRows ==>
      RowsInside(a, a, numCols, i, j) &&
      Distance(a, a, numCols, i, j) == Distance(a, a, numCols, j, i) &&
      Distance(a, a, numCols, i, i) == 0.0
  {
    forall i: nat, j: nat | i < numRows && j < numRows
      ensures RowsInside(a, a, numCols, i, j) &&
        Distance(a, a, numCols, i, j) == Distance(a, a, numCols, j, i) &&
        Distance(a, a, numCols, i, i) == 0.0
    {
      RowsFit(a, a, numRows, numCols, i, j);
      L1DistSymmetric(Row(a, numCols, i), Row(a, numCols, j));
      L1DistSelf(Row(a, numCols, i));
    }
  }

  /** The innermost loop of `cbdm`: the accumulator starts at zero and adds
      |a[i, k] - b[j, k]| for k = 0 .. num_cols - 1. */
  method RowDistance(a: array<real>, b: array<real>, numCols: nat, i: nat, j: nat)
    returns (acc: real)
    requires RowsInside(a[..], b[..], numCols, i, j)
    ensures acc == Distance(a[..], b[..], numCols, i, j)
  {
    ghost var u, v := Row(a[..], numCols, i), Row(b[..], numCols, j);
    acc := 0.0;
    for k := 0 to numCols
      invariant acc == L1Dist(u[..k], v[..k])
    {
      assert u[..k + 1][..k] == u[..k] && v[..k + 1][..k] == v[..k];
      acc := acc + Abs(a[Flat(i, k, numCols)] - b[Flat(j, k, numCols)]);
    }
    assert u[..numCols] == u && v[..numCols] == v;
  }

  /** One pass of the middle loop of `cbdm`: for every j, compute the row
      distance and store it at `r[i * num_rows + j]`. Only row i of the
      result, offsets `i * num_rows` up to `(i + 1) * num_rows`, changes. */
  method FillRow(a: array<real>, b: array<real>, r: array<real>, numRows: nat, numCols: nat, i: nat)
    requires Fits(a[..], b[..], numRows, numCols) && i < numRows
    requires numRows * numRows <= r.Length
    requires r != a && r != b
    modifies r
    ensures forall j: nat :: j < numRows ==>
      RowsInside(a[..], b[..], numCols, i, j) && Flat(i, j, numRows) < r.Length &&
      r[Flat(i, j, numRows)] == Distance(a[..], b[..], numCols, i, j)
    ensures forall c :: 0 <= c < r.Length && !(Flat(i, 0, numRows) <= c < Flat(i, numRows, numRows)) ==>
      r[c] == old(r[c])
  {
    FlatBound(i, 0, numRows, numRows);
    for j := 0 to numRows
      invariant forall j': nat :: j' < j ==>
        RowsInside(a[..], b[..], numCols, i, j') &&
        r[Flat(i, j', numRows)] == Distance(a[..], b[..], numCols, i, j')
      invariant forall c :: 0 <= c < r.Length && !(Flat(i, 0, numRows) <= c < Flat(i, j, numRows)) ==>
        r[c] == old(r[c])
    {
      RowsFit(a[..], b[..], numRows, numCols, i, j);
      var acc := RowDistance(a, b, numCols, i, j);
      r[Flat(i, j, numRows)] := acc;
    }
  }

  /** `cbdm`: for every pair (i, j) compute the row distance and store it at
      `r[i * num_rows + j]`. Only the first `num_rows^2` entries of `r` are
      written; `a` and `b` may be the same buffer but must not overlap `r`. */
  method Cbdm(a: array<real>, b: array<real>, r: array<real>, numRows: nat, numCols: nat)
    requires Fits(a[..], b[..], numRows, numCols)
    requires numRows * numRows <= r.Length
    requires r != a && r != b
    modifies r
    ensures forall i: nat, j: nat :: i < numRows && j < numRows ==>
      RowsInside(a[..], b[..], numCols, i, j) && Flat(i, j, numRows) < r.Length &&
      r[Flat(i, j, numRows)] == Distance(a[..], b[..], numCols, i, j)
    ensures forall c :: numRows * numRows <= c < r.Length ==> r[c] == old(r[c])
  {
    for i := 0 to numRows
      invariant Flat(i, 0, numRows) <= numRows * numRows
      invariant forall i': nat, j': nat :: i' < i && j' < numRows ==>
        RowsInside(a[..], b[..], numCols, i', j') && Flat(i', j', numRows) < Flat(i, 0, numRows) &&
        r[Flat(i', j', numRows)] == Distance(a[..], b[..], numCols, i', j')
      invariant forall c :: Flat(i, 0, numRows) <= c < r.Length ==> r[c] == old(r[c])
    {
      FlatBefore(i, 0, numRows);
      FlatNextRow(i, numRows);
      FlatBefore(i + 1, 0, numRows);
      FillRow(a, b, r, numRows, numCols, i);
      MulLe(i + 1, numRows, numRows);
    }
    FlatNextRow(0, numRows);
  }
}
