# Exact kernels of a Python HPC teaching repository, in Dafny

This project models the numerical kernels of the repository whose results can be
stated exactly. Every floating-point value is a Dafny `real`, so the model says
nothing about rounding.

- **Diffusion stencil** (`diffusion.dfy`, module `Diffusion`). This is the
  nonlinear diffusion-reaction operator of the Fisher-equation mini-app.
  - Given a field `U` on an `nx x ny` grid, the old field `x_old`, Dirichlet
    boundary arrays `north`, `south`, `east` and `west`, and the run options,
    it writes the residual into a separate flat buffer `S`.
  - `S` is row-major: `(i, j)` is offset `i * ny + j`.
  - The operator is a method over `array<real>`. It works region by region,
    in the source order: interior, east, west, north-west, north, north-east,
    south-west, south, south-east.
  - Its specification is the pure per-cell function `Stencil`.
  - `DirichletStencil` is an independent reference: the five-point stencil
    with boundary values standing in for missing neighbours. It is related to
    `Stencil` cell by cell.
- **City-block distance matrix** (`cityblock.dfy`, module `CityBlock`). The C
  kernel `cbdm` writes the `num_rows x num_rows` matrix of L1 distances between
  the rows of two row-major buffers. It is an imperative triple loop.
- **Trial-division primality** (`primes.dfy`, module `Primes`). The C function
  `is_prime`. `(int)sqrt(n)` becomes the integer square root `ISqrt`.
- **Dense `y := alpha A x + beta y`** (`gemv.dfy`, module `Gemv`). This covers:
  - `gemv_v1`, the loop version;
  - `gemv_v2`, the expression version;
  - the per-thread body of the CUDA kernel `_gemv_cuda`;
  - the block count and launch of `gemv_v3`.
- **Squared-Euclidean distance matrices** (`edm.dfy`, module `Edm`). There are
  two families of numpy formulas:
  - the broadcast family: einsum or `.sum(axis=2)` over `x[:, newaxis, :] - y[newaxis, :, :]`;
  - the "trick" family: `|x2 + y2 - 2 x y^T|`.

  All of them are proved equal to the matrix of squared distances between rows.
- **Shared pieces**:
  - `vectors.dfy` (module `Vectors`): sums, dot products, squared and L1
    distances over `seq<real>`, and their algebra;
  - `layout.dfy` (module `Layout`): row-major flattening and its arithmetic.

Every variant's docstring is headed "Euclidean square distance matrix", and the
docstrings write the entries with a single index pair. The broadcast variants
(numpy/solutions/edm-broadcast-einsum.py:10, profiling/05_lineprofiler.py:14)
say `r_ij = x_ij^2 - y_ij^2`. The trick variants (profiling/04_lineprofiler.py:14,
profiling/02_memprofiler.py:15, f2py/distance-f90/test_edm.py:15,
f2py/distance-f90-pythonized/test_edm.py:15) say `r_ij = (x_ij - y_ij)^2`.
Neither formula is what the code computes, which is `sum_k (x_ik - y_jk)^2`.
The model takes its meaning from the heading, the squared Euclidean distance
between row i of x and row j of y, and follows the code.

## Model

| member | source | states |
|---|---|---|
| Diffusion.RegionOf | miniapp/operators.py:21-74 | each cell of a grid of at least 2 x 2 falls in exactly one of the nine cases, and each case is characterised by its coordinates (both directions) |
| Diffusion.Diffusion | miniapp/operators.py:12-74 | after the call, every cell `(i, j)` of `S` holds `Stencil` of its region (`dxs = 1000 dx^2`); only `S` is modified, and `S` must not alias `U` or `x_old` |
| Diffusion.EveryOffsetIsACell | miniapp/operators.py:24-26 | every flat offset c below `nx * ny` is the cell `(c / ny, c % ny)` of the reshaped view, so a buffer that holds the stencil at every cell holds it at every offset: no entry of `S` is left unwritten |
| Diffusion.FillInterior | miniapp/operators.py:28-32 | interior cells get `-(4+alpha)U + U[i-1,j] + U[i+1,j] + U[i,j-1] + U[i,j+1] + alpha x_old + dxs U(1-U)`; every other cell is unchanged |
| Diffusion.FillEast | miniapp/operators.py:34-38 | east-edge cells get the stencil with `east[j]` in place of `U[i+1,j]`; every other cell is unchanged |
| Diffusion.FillWest | miniapp/operators.py:40-44 | west-edge cells get the stencil as written: it reads `U[nx-1,j]` by wraparound and adds `west[j]`; every other cell is unchanged |
| Diffusion.FillNorthWest | miniapp/operators.py:46-49 | the corner `(0, ny-1)` keeps its two in-grid neighbours and adds `west[ny-1] + north[0]`; nothing else changes |
| Diffusion.FillNorth | miniapp/operators.py:51-54 | north-edge cells get the stencil with `north[i]` in place of `U[i,j+1]`; every other cell is unchanged |
| Diffusion.FillNorthEast | miniapp/operators.py:56-59 | the corner `(nx-1, ny-1)` adds `east[ny-1] + north[nx-1]`; nothing else changes |
| Diffusion.FillSouthWest | miniapp/operators.py:61-64 | the corner `(0, 0)` adds `west[0] + south[0]`; nothing else changes |
| Diffusion.FillSouth | miniapp/operators.py:66-69 | south-edge cells get the stencil with `south[i]` in place of `U[i,j-1]`; every other cell is unchanged |
| Diffusion.FillSouthEast | miniapp/operators.py:71-74 | the corner `(nx-1, 0)` adds `east[0] + south[nx-1]`; nothing else changes |
| Diffusion.StencilAgainstDirichlet | miniapp/operators.py:29-74 | eight of the nine cases equal the Dirichlet five-point reference; on the west edge the operator differs from it by exactly `U[nx-1,j] - U[1,j]` |
| Diffusion.TwoRowsAreDirichlet | miniapp/operators.py:41-44 | with `nx = 2` the wraparound reads row 1, so every cell equals the reference |
| Diffusion.DirichletIsLocal | miniapp/operators.py:29-74 | the reference stencil at a cell depends on the field only at that cell and its four neighbours |
| Diffusion.WestEdgeReadsFarRow | miniapp/operators.py:41-44 | on any grid with at least three rows, changing the field only at `(nx-1, j)`, which is not a neighbour of `(0, j)`, changes the residual at `(0, j)` by exactly that change |
| Diffusion.WestEdgeIsNotLocal | miniapp/operators.py:41-44 | on a 3 x 3 grid, two fields that agree around `(0, 1)` give different residuals there under the operator as written |
| Diffusion.ConstantStateLeavesReaction | miniapp/operators.py:13-74 | with field, old field and all boundaries equal to a constant c, every cell of both stencils is the reaction term `dxs c (1-c)`; with c = 0 every entry is zero |
| Diffusion.BoundaryPrefixSuffices | miniapp/operators.py:35-74 | `north`/`south` are read only below `nx` and `east`/`west` only below `ny`: boundary arrays that agree there give the same residual |
| Diffusion.FillWestIntended | miniapp/operators.py:40-44 | the corrected west loop, reading `U[1,j]`, writes the reference stencil on the west edge and leaves every other cell unchanged |
| Diffusion.DiffusionIntended | miniapp/operators.py:12-74 | the operator with the west edge corrected writes the Dirichlet reference stencil into every cell |
| CityBlock.Cbdm | cffi/code-version/cityblock.c:4-17 | for all `i, j < num_rows`, `r[i*num_rows+j]` is the L1 distance between row i of `a` and row j of `b`; entries from `num_rows^2` on are unchanged; only `r` is modified |
| CityBlock.FillRow | cffi/code-version/cityblock.c:9-15 | one pass of the middle loop stores the distance from row i of `a` to every row j of `b` at `r[i*num_rows+j]`, and changes no entry outside row i |
| CityBlock.RowDistance | cffi/code-version/cityblock.c:10-13 | the accumulator, reset to zero and summed over k, is the L1 distance between the two rows |
| CityBlock.DistanceBounds | cffi/code-version/cityblock.c:10-14 | every entry is non-negative, and with `num_cols = 0` every entry is zero |
| CityBlock.SameBufferSymmetric | cffi/code-version/test_cityblock.py:20 | called with the same buffer twice, the matrix is symmetric with a zero diagonal |
| Primes.IsPrime | cython/wrapping_c/primes.c:5-17 | the result is true iff `n >= 2` and no `i` in `[2, n_sqrt]` divides n, and also iff n is prime (no divisor in `[2, n)`); `n <= 1` gives false |
| Primes.ISqrt | cython/wrapping_c/primes.c:9 | `r*r <= n < (r+1)*(r+1)` |
| Primes.ISqrtIsLargest | cython/wrapping_c/primes.c:9 | every k with `k*k <= n` is at most `ISqrt(n)`, so it is the largest such k |
| Primes.DivisorBelowSqrt | cython/wrapping_c/primes.c:11-14 | a number with a divisor in `[2, n)` has one in `[2, ISqrt(n)]` |
| Primes.PrimeIffNoSmallDivisor | cython/wrapping_c/primes.c:9-16 | trial division up to `ISqrt(n)` decides primality |
| Primes.TwoAndThreeSkipTheLoop | cython/wrapping_c/primes.c:9-11 | `ISqrt(2) = ISqrt(3) = 1`, so the loop body never runs, and both are prime |
| Gemv.RowProduct | numba-cuda/src/matvec.py:18-20 | the accumulated `prod` is the dot product of row i of A with the first M entries of x |
| Gemv.GemvV1 | numba-cuda/src/matvec.py:13-24 | returns a fresh array of length N with `y_ret[i] = alpha (row i . x) + beta y[i]`; for exact sizes it equals `gemv_v2` |
| Gemv.GemvV2 | numba-cuda/src/matvec.py:27-28 | `gemv_v2` has one entry per row of A, and entry i is `alpha (row i . x) + beta y[i]`; it is the reference that `GemvV1`, `GemvV3` and `UpdatedIsGemvV2` are proved equal to |
| Gemv.UpdatedIsGemvV2 | numba-cuda/src/matvec.py:199-201 | a vector holding the row update in every entry equals the reference `alpha*(A @ x) + beta*y` |
| Gemv.GemvKernel | numba-cuda/src/matvec.py:34-44 | a thread index `i >= N` changes nothing; `i < N` overwrites only `y[i]`, with `alpha (row i . x) + beta` times the old `y[i]` |
| Gemv.BlockCount | numba-cuda/src/matvec.py:83-86 | `NB * BLOCK_SIZE >= N` and `(NB-1) * BLOCK_SIZE < N` |
| Gemv.BlockCountIsLeast | numba-cuda/src/matvec.py:83-86 | no smaller block count covers N rows, so NB is the ceiling of `N / BLOCK_SIZE` |
| Gemv.GemvV3 | numba-cuda/src/matvec.py:76-99 | running the kernel for every index below `NB * BLOCK_SIZE` on a copy of y updates every entry below N and keeps the rest; for exact sizes the result equals `gemv_v2`; the caller's y is not modified |
| Edm.SqDistMatrix | profiling/04_lineprofiler.py:6-15 | the promised matrix has shape `rows(x) x rows(y)` and no negative entry |
| Edm.EuclideanBroadcastEinsum | numpy/solutions/edm-broadcast-einsum.py:1-14 | the result has shape `rows(x) x rows(y)` |
| Edm.EinsumIsSqDistMatrix | numpy/solutions/edm-broadcast-einsum.py:12-14 | the einsum reduction of the broadcast difference is `sum_k (x_ik - y_jk)^2` at every `(i, j)` |
| Edm.EuclideanBroadcastSum | profiling/05_lineprofiler.py:5-18 | the result has shape `rows(x) x rows(y)` |
| Edm.SumIsSqDistMatrix | profiling/05_lineprofiler.py:16-18 | `(diff * diff).sum(axis=2)` is the squared-distance matrix, the same matrix as the einsum form |
| Edm.SqDistMatrixSelf | profiling/05_lineprofiler.py:27 | distances from a set of rows to itself are symmetric with a zero diagonal |
| Edm.BroadcastSelfSymmetric | numpy/solutions/edm-broadcast-einsum.py:12-14 | with x for y, both broadcast forms agree, are symmetric, have a zero diagonal and no negative entry |
| Edm.EuclideanTrick | profiling/04_lineprofiler.py:5-21 | `euclidean_trick` has shape `rows(x) x rows(y)`; the same function models profiling/02_memprofiler.py:6-22 and f2py/distance-f90/test_edm.py:6-23 |
| Edm.ProductWithTranspose | profiling/04_lineprofiler.py:19 | entry `(i, j)` of `x @ y.T` is the inner product of row i of x and row j of y |
| Edm.TrickBeforeAbsAt | profiling/04_lineprofiler.py:16-21 | before `abs`, entry `(i, j)` is the squared norm of row i of x, plus the squared norm of row j of y, minus twice their inner product; this equals their squared distance |
| Edm.TrickAbsIsNoOp | profiling/04_lineprofiler.py:21 | over exact reals the `abs` leaves the matrix unchanged |
| Edm.TrickIsSqDistMatrix | profiling/02_memprofiler.py:6-22 | the trick form equals `sum_k (x_ik - y_jk)^2`, as the docstring promises |
| Edm.TrickSelfSymmetric | f2py/distance-f90/test_edm.py:35 | with x for y the trick form is symmetric, has a zero diagonal and no negative entry |
| Edm.EuclideanNumpyPythonized | f2py/distance-f90-pythonized/test_edm.py:6-23 | the pythonized `euclidean_numpy` has shape `rows(x) x rows(y)` |
| Edm.PythonizedEqualsTrick | f2py/distance-f90-pythonized/test_edm.py:19 | `v[:, newaxis].T` is the row `v[newaxis, :]`, so the pythonized variant equals the trick form and the squared-distance matrix |
| Vectors.NormExpansion | profiling/04_lineprofiler.py:21 | `u.u + v.v - 2 u.v` is the squared distance between u and v |
| Vectors.SumHadamardIsDot | profiling/05_lineprofiler.py:18 | summing the elementwise product is the dot product |
| Vectors.L1DistSymmetric | cffi/code-version/cityblock.c:12 | the L1 distance is symmetric |

## Left out

- The conjugate-gradient solver and the Newton/time loop of the mini-app are
  not part of this model. They rely on floating-point tolerances, `sqrt`
  stopping tests and a finite-difference Jacobian.
- The mini-app driver is not part of this model: argument parsing, the
  initial condition, timing and plotting.
- The CUDA shared-memory kernel, `gemv_v4`, vector addition and all CUDA
  timing are not part of this model.
- `gemv_v3` device transfers are left out. The device copy of y is a fresh array.
- The kernel threads run one index after the other.
- The `prange` loops of `gemv_v1` and the OpenMP loop of `cbdm` are modelled
  as sequential loops. Every iteration writes its own entry.
- Foreign-call and build glue is not part of this model: cffi and f2py
  wrappers, setup scripts and the Fortran kernels.
- The driver scripts, timing lines of the test scripts and the MPI example are
  not part of this model.
- Floating point: every formula is over exact reals. The `abs` of the trick
  form exists to hide cancellation error, which cannot happen here, so it is
  proved a no-op.
- Primes.IsPrime: `(int)sqrt(n)` is modelled as the exact integer square root.
  A C `double` square root truncated to `int` could in principle round
  differently near perfect squares.
- Primes.IsPrime: C `int` overflow is not modelled. The arguments are unbounded
  integers.
- CityBlock.Cbdm: the `int` products `i * num_cols` and `i * num_rows` are
  unbounded, so overflow of the C index arithmetic is not modelled.
- Edm: numpy broadcasting is modelled only for the shapes these formulas use:
  an n x 1 column plus a 1 x m row, and the (n, 1, d) minus (1, m, d)
  difference.
- Diffusion.Diffusion: requires `nx >= 2` and `ny >= 2`. On smaller grids the
  region loops are empty and the border cases overlap. With `nx = 1` the east
  and west edges both write column 0. With `ny = 1` the corners and the north
  and south rows all fall on `j = 0`. The driver accepts `ny = 1`
  (miniapp/main.py:68); `nx = 1` fails earlier, at `dx = 1/(nx-1)`
  (miniapp/main.py:77). This case is not part of this model.
- CityBlock.Cbdm: `num_rows` and `num_cols` are `nat`. The C parameters are
  `int` and may be negative, in which case `cbdm` writes nothing
  (cffi/code-version/cityblock.c:8-11). This case is not part of this model.
- Diffusion.Diffusion: the options record carries only the fields the operator
  reads (`nx`, `ny`, `dx`, `alpha`). The time step and iteration counts of the
  mini-app's settings are not part of this model.
- Diffusion.Diffusion: the buffers are three distinct arrays. The reshape into
  `(nx, ny)` views is modelled by the row-major offset `i * ny + j`.

## Findings

| source | as written | input that shows it | evidently intended | confidence | as-written member | corrected member |
|---|---|---|---|---|---|---|
| miniapp/operators.py:41-44 | the west-edge loop (i = 0) adds `U[i-1, j]`. That is numpy's `U[-1, j]`, the cell in row `nx-1` on the far side of the grid, and `U[1, j]` is never read | nx = ny = 3 with dx = 1/2 and alpha = 5/2, all inputs zero except `U[2, 1] = 1`: the residual at `(0, 1)` is 1 instead of 0, though `(2, 1)` is not a neighbour of `(0, 1)` | the in-grid neighbour `U[i+1, j]`, as in every other border case, so that the west edge is the Dirichlet five-point stencil | high; not executed | Diffusion.WestEdgeIsNotLocal | Diffusion.DiffusionIntended |
