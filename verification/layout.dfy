/** Row-major flattening of a two-dimensional index, the layout shared by the
    C distance kernel (`r[i * num_rows + j]`) and the reshaped numpy buffers of
    the diffusion stencil (`(i, j)` of an `(nx, ny)` view is `i * ny + j`). */
module Layout {

  /** Flat offset of cell (i, j) in a row-major grid whose rows have `width`
      entries. */
  function Flat(i: nat, j: nat, width: nat): nat
  {
    i * width + j
  }

  lemma MulLe(a: int, b: int, c: int)
    requires a <= b && c >= 0
    ensures a * c <= b * c
  {
  }

  /** Every cell of a rows x width grid has its own offset below rows * width,
      and the whole of row i fits below that bound too. */
  lemma FlatBound(i: nat, j: nat, rows: nat, width: nat)
    requires i < rows && j < width
    ensures Flat(i, j, width) < Flat(i, width, width) <= rows * width
  {
    MulLe(i + 1, rows, width);
  }

  /** The same bound for every cell of the grid at once. */
  lemma FlatInside(rows: nat, width: nat)
    ensures forall i: nat, j: nat :: i < rows && j < width ==> Flat(i, j, width) < rows * width
  {
    forall i: nat, j: nat | i < rows && j < width
      ensures Flat(i, j, width) < rows * width
    {
      FlatBound(i, j, rows, width);
    }
  }

  /** Cells come in row-major order: every cell lexicographically before
      (i, j) has a smaller offset. */
  lemma FlatBefore(i: nat, j: nat, width: nat)
    ensures forall i': nat, j': nat :: j' < width && (i' < i || (i' == i && j' < j)) ==>
      Flat(i', j', width) < Flat(i, j, width)
  {
    forall i': nat, j': nat | j' < width && (i' < i || (i' == i && j' < j))
      ensures Flat(i', j', width) < Flat(i, j, width)
    {
      if i' < i {
        MulLe(i' + 1, i, width);
      }
    }
  }

  /** The offset just past row i is the start of row i + 1. */
  lemma FlatNextRow(i: nat, width: nat)
    ensures Flat(i, width, width) == Flat(i + 1, 0, width)
  {
  }

  /** Division and remainder by the width recover the cell of an offset. */
  lemma FlatCoords(i: nat, j: nat, width: nat)
    requires j < width
    ensures Flat(i, j, width) / width == i && Flat(i, j, width) % width == j
  {
    var c := Flat(i, j, width);
    var q, m := c / width, c % width;
    assert (i - q) * width == m - j;
    if i - q >= 1 {
      MulLe(1, i - q, width);
      assert false;
    }
    if i - q <= -1 {
      MulLe(1, q - i, width);
      assert false;
    }
  }

  /** Distinct cells have distinct offsets. */
  lemma FlatInjective(i: nat, j: nat, i': nat, j': nat, width: nat)
    requires j < width && j' < width && Flat(i, j, width) == Flat(i', j', width)
    ensures i == i' && j == j'
  {
    FlatCoords(i, j, width);
    FlatCoords(i', j', width);
  }

  /** Conversely every offset is the offset of the cell it divides into. */
  lemma CoordsFlat(c: nat, width: nat)
    requires width > 0
    ensures Flat(c / width, c % width, width) == c
  {
  }

  /** Offsets below rows * width divide into a row below rows. */
  lemma CoordsBound(c: nat, rows: nat, width: nat)
    requires width > 0 && c < rows * width
    ensures c / width < rows
  {
    if c / width >= rows {
      MulLe(rows, c / width, width);
      CoordsFlat(c, width);
      assert false;
    }
  }
}
