/** The nonlinear diffusion-reaction operator of the mini-app
    (`diffusion` in miniapp/operators.py). For a field U on an nx x ny grid,
    stored flat and row-major (`(i, j)` is offset `i * ny + j`), it writes the
    residual S cell by cell. Missing neighbours on the border are replaced by
    Dirichlet boundary values: `north`/`south` (indexed by i, along j = ny - 1
    and j = 0) and `east`/`west` (indexed by j, along i = nx - 1 and i = 0).
    Arithmetic is over exact reals. */
module Diffusion {
  import opened Layout

  /** The run parameters the operator reads: grid size, grid spacing and
      `alpha = dx^2 / dt`. */
  datatype Options = Options(nx: nat, ny: nat, dx: real, alpha: real)

  /** The four Dirichlet boundary arrays. */
  datatype Boundary = Boundary(north: seq<real>, south: seq<real>, east: seq<real>, west: seq<real>)

  /** The nine stencil cases, named after the part of the grid they cover. */
  datatype Region =
    | Interior | East | West | NorthWest | North | NorthEast | SouthWest | South | SouthEast

  /** What the operator needs of its inputs: a grid of at least 2 x 2 (the
      border cases read the neighbour at i + 1 and j + 1 from i = 0 and j = 0),
      fields of nx * ny entries and boundary arrays long enough for the
      indices read from them. */
  predicate Inputs(u: seq<real>, xOld: seq<real>, bnd: Boundary, opts: Options)
  {
    && opts.nx >= 2 && opts.ny >= 2
    && |u| == opts.nx * opts.ny && |xOld| == opts.nx * opts.ny
    && |bnd.north| >= opts.nx && |bnd.south| >= opts.nx
    && |bnd.east| >= opts.ny && |bnd.west| >= opts.ny
  }

  /** The value of a field at cell (i, j): the reshaped view `U[i, j]`. */
  function At(u: seq<real>, opts: Options, i: nat, j: nat): real
    requires |u| == opts.nx * opts.ny && i < opts.nx && j < opts.ny
  {
    FlatBound(i, j, opts.nx, opts.ny);
    u[Flat(i, j, opts.ny)]
  }

  /** Which of the nine cases cell (i, j) falls in. Every cell of the grid
      is in exactly one region, given by its position on each axis. */
  function RegionOf(opts: Options, i: nat, j: nat): (r: Region)
    requires opts.nx >= 2 && opts.ny >= 2 && i < opts.nx && j < opts.ny
    ensures r == Interior <==> 0 < i < opts.nx - 1 && 0 < j < opts.ny - 1
    ensures r == East <==> i == opts.nx - 1 && 0 < j < opts.ny - 1
    ensures r == West <==> i == 0 && 0 < j < opts.ny - 1
    ensures r == NorthWest <==> i == 0 && j == opts.ny - 1
    ensures r == North <==> 0 < i < opts.nx - 1 && j == opts.ny - 1
    ensures r == NorthEast <==> i == opts.nx - 1 && j == opts.ny - 1
    ensures r == SouthWest <==> i == 0 && j == 0
    ensures r == South <==> 0 < i < opts.nx - 1 && j == 0
    ensures r == SouthEast <==> i == opts.nx - 1 && j == 0
  {
    if i == 0 then
      (if j == 0 then SouthWest else if j == opts.ny - 1 then NorthWest else West)
    else if i == opts.nx - 1 then
      (if j == 0 then SouthEast else if j == opts.ny - 1 then NorthEast else East)
    else
      (if j == 0 then South else if j == opts.ny - 1 then North else Interior)
  }

  /** The reaction term `dxs * U * (1 - U)` with `dxs = 1000 * dx^2`. */
  function Reaction(opts: Options, c: real): real
  {
    1000.0 * opts.dx * opts.dx * c * (1.0 - c)
  }

  /** Residual at cell (i, j), case by case as the operator computes it.
      On the west edge the neighbour `U[i - 1, j]` at i = 0 is numpy's
      negative index -1, that is row nx - 1, and `U[1, j]` is not read. */
  function Stencil(u: seq<real>, xOld: seq<real>, bnd: Boundary, opts: Options, i: nat, j: nat): real
    requires Inputs(u, xOld, bnd, opts) && i < opts.nx && j < opts.ny
  {
    var c := At(u, opts, i, j);
    var centre := -(4.0 + opts.alpha) * c;
    var prev := opts.alpha * At(xOld, opts, i, j);
    match RegionOf(opts, i, j)
    case Interior =>
      centre + At(u, opts, i - 1, j) + At(u, opts, i + 1, j) + At(u, opts, i, j - 1)
      + At(u, opts, i, j + 1) + prev + Reaction(opts, c)
    case East =>
      centre + At(u, opts, i - 1, j) + At(u, opts, i, j - 1) + At(u, opts, i, j + 1)
      + prev + bnd.east[j] + Reaction(opts, c)
    case West =>
      centre + At(u, opts, opts.nx - 1, j) + At(u, opts, i, j - 1) + At(u, opts, i, j + 1)
      + prev + bnd.west[j] + Reaction(opts, c)
    case NorthWest =>
      centre + At(u, opts, i + 1, j) + At(u, opts, i, j - 1)
      + prev + bnd.west[j] + bnd.north[i] + Reaction(opts, c)
    case North =>
      centre + At(u, opts, i - 1, j) + At(u, opts, i + 1, j) + At(u, opts, i, j - 1)
      + prev + bnd.north[i] + Reaction(opts, c)
    case NorthEast =>
      centre + At(u, opts, i - 1, j) + At(u, opts, i, j - 1)
      + prev + bnd.east[j] + bnd.north[i] + Reaction(opts, c)
    case SouthWest =>
      centre + At(u, opts, i + 1, j) + At(u, opts, i, j + 1)
      + prev + bnd.west[j] + bnd.south[i] + Reaction(opts, c)
    case South =>
      centre + At(u, opts, i - 1, j) + At(u, opts, i + 1, j) + At(u, opts, i, j + 1)
      + prev + bnd.south[i] + Reaction(opts, c)
    case SouthEast =>
      centre + At(u, opts, i - 1, j) + At(u, opts, i, j + 1)
      + prev + bnd.east[j] + bnd.south[i] + Reaction(opts, c)
  }

  // ----- The operator, region by region ---------------------------------

  /** Shapes of the buffers the operator works on; S must be a buffer of its
      own, distinct from U and from the old field. */
  predicate Buffers(U: array<real>, S: array<real>, xOld: array<real>, bnd: Boundary, opts: Options)
  {
    && opts.nx >= 2 && opts.ny >= 2
    && U.Length == opts.nx * opts.ny && xOld.Length == opts.nx * opts.ny
    && S.Length == opts.nx * opts.ny
    && |bnd.north| >= opts.nx && |bnd.south| >= opts.nx
    && |bnd.east| >= opts.ny && |bnd.west| >= opts.ny
    && S != U && S != xOld
  }

  /** Every cell of a region in `done` holds its stencil value. */
  ghost predicate Filled(s: seq<real>, u: seq<real>, xOld: seq<real>, bnd: Boundary, opts: Options, done: set<Region>)
    requires Inputs(u, xOld, bnd, opts) && |s| == opts.nx * opts.ny
  {
    forall i: nat, j: nat :: i < opts.nx && j < opts.ny && RegionOf(opts, i, j) in done ==>
      At(s, opts, i, j) == Stencil(u, xOld, bnd, opts, i, j)
  }

  /** `s` is `prev` with the cells of region r given their stencil values
      and every other cell left as it was. */
  ghost predicate FillsRegion(s: seq<real>, prev: seq<real>, u: seq<real>, xOld: seq<real>, bnd: Boundary,
                              opts: Options, r: Region)
    requires Inputs(u, xOld, bnd, opts) && |s| == |prev| == opts.nx * opts.ny
  {
    forall i: nat, j: nat :: i < opts.nx && j < opts.ny ==>
      At(s, opts, i, j) == if RegionOf(opts, i, j) == r then Stencil(u, xOld, bnd, opts, i, j)
                           else At(prev, opts, i, j)
  }

  lemma FillStep(s: seq<real>, prev: seq<real>, u: seq<real>, xOld: seq<real>, bnd: Boundary,
                 opts: Options, done: set<Region>, r: Region)
    requires Inputs(u, xOld, bnd, opts) && |s| == |prev| == opts.nx * opts.ny
    requires Filled(prev, u, xOld, bnd, opts, done) && FillsRegion(s, prev, u, xOld, bnd, opts, r)
    ensures Filled(s, u, xOld, bnd, opts, done + {r})
  {
  }

  /** Writing one offset leaves the value of every other cell alone. */
  lemma WriteCell(s: seq<real>, opts: Options, i: nat, j: nat, v: real)
    requires |s| == opts.nx * opts.ny && i < opts.nx && j < opts.ny
    ensures Flat(i, j, opts.ny) < |s|
    ensures forall i': nat, j': nat :: i' < opts.nx && j' < opts.ny ==>
      At(s[Flat(i, j, opts.ny) := v], opts, i', j') == if i' == i && j' == j then v else At(s, opts, i', j')
  {
    FlatBound(i, j, opts.nx, opts.ny);
    var t := s[Flat(i, j, opts.ny) := v];
    forall i': nat, j': nat | i' < opts.nx && j' < opts.ny
      ensures At(t, opts, i', j') == if i' == i && j' == j then v else At(s, opts, i', j')
    {
      FlatBound(i', j', opts.nx, opts.ny);
      if Flat(i', j', opts.ny) == Flat(i, j, opts.ny) {
        FlatInjective(i, j, i', j', opts.ny);
      }
    }
  }

  /** The interior loop nest: `for i in range(1, iend): for j in range(1, jend)`. */
  method FillInterior(U: array<real>, S: array<real>, xOld: array<real>, bnd: Boundary, opts: Options)
    requires Buffers(U, S, xOld, bnd, opts)
    modifies S
    ensures FillsRegion(S[..], old(S[..]), U[..], xOld[..], bnd, opts, Interior)
  {
    var nx, ny, alpha := opts.nx, opts.ny, opts.alpha;
    var dxs := 1000.0 * opts.dx * opts.dx;
    ghost var u, o, prev := U[..], xOld[..], S[..];
    FlatInside(nx, ny);
    for i := 1 to nx - 1
      invariant U[..] == u && xOld[..] == o
      invariant forall i': nat, j': nat :: i' < nx && j' < ny ==>
        At(S[..], opts, i', j') == if 0 < i' < i && 0 < j' < ny - 1 then Stencil(u, o, bnd, opts, i', j')
                                   else At(prev, opts, i', j')
    {
      for j := 1 to ny - 1
        invariant U[..] == u && xOld[..] == o
        invariant forall i': nat, j': nat :: i' < nx && j' < ny ==>
          At(S[..], opts, i', j') == if (0 < i' < i && 0 < j' < ny - 1) || (i' == i && 0 < j' < j)
                                     then Stencil(u, o, bnd, opts, i', j')
                                     else At(prev, opts, i', j')
      {
        var c := U[Flat(i, j, ny)];
        var v := -(4.0 + alpha) * c + U[Flat(i - 1, j, ny)] + U[Flat(i + 1, j, ny)] + U[Flat(i, j - 1, ny)]
          + U[Flat(i, j + 1, ny)] + alpha * xOld[Flat(i, j, ny)] + dxs * c * (1.0 - c);
        assert v == Stencil(u, o, bnd, opts, i, j);
        WriteCell(S[..], opts, i, j, v);
        S[Flat(i, j, ny)] := v;
      }
    }
  }

  /** A whole column edge, `i = iend` (east) or `i = 0` (west), for
      `j in range(1, jend)`. */
  method FillEast(U: array<real>, S: array<real>, xOld: array<real>, bnd: Boundary, opts: Options)
    requires Buffers(U, S, xOld, bnd, opts)
    modifies S
    ensures FillsRegion(S[..], old(S[..]), U[..], xOld[..], bnd, opts, East)
  {
    var nx, ny, alpha := opts.nx, opts.ny, opts.alpha;
    var dxs := 1000.0 * opts.dx * opts.dx;
    ghost var u, o, prev := U[..], xOld[..], S[..];
    FlatInside(nx, ny);
    var i := nx - 1;
    for j := 1 to ny - 1
      invariant U[..] == u && xOld[..] == o
      invariant forall i': nat, j': nat :: i' < nx && j' < ny ==>
        At(S[..], opts, i', j') == if i' == i && 0 < j' < j then Stencil(u, o, bnd, opts, i', j')
                                   else At(prev, opts, i', j')
    {
      var c := U[Flat(i, j, ny)];
      var v := -(4.0 + alpha) * c + U[Flat(i - 1, j, ny)] + U[Flat(i, j - 1, ny)] + U[Flat(i, j + 1, ny)]
        + alpha * xOld[Flat(i, j, ny)] + bnd.east[j] + dxs * c * (1.0 - c);
      assert v == Stencil(u, o, bnd, opts, i, j);
      WriteCell(S[..], opts, i, j, v);
      S[Flat(i, j, ny)] := v;
    }
  }

  method FillWest(U: array<real>, S: array<real>, xOld: array<real>, bnd: Boundary, opts: Options)
    requires Buffers(U, S, xOld, bnd, opts)
    modifies S
    ensures FillsRegion(S[..], old(S[..]), U[..], xOld[..], bnd, opts, West)
  {
    var nx, ny, alpha := opts.nx, opts.ny, opts.alpha;
    var dxs := 1000.0 * opts.dx * opts.dx;
    ghost var u, o, prev := U[..], xOld[..], S[..];
    FlatInside(nx, ny);
    var i := 0;
    for j := 1 to ny - 1
      invariant U[..] == u && xOld[..] == o
      invariant forall i': nat, j': nat :: i' < nx && j' < ny ==>
        At(S[..], opts, i', j') == if i' == i && 0 < j' < j then Stencil(u, o, bnd, opts, i', j')
                                   else At(prev, opts, i', j')
    {
      var c := U[Flat(i, j, ny)];
      // `U[i - 1, j]` with i = 0: the index -1 wraps around to row nx - 1.
      var v := -(4.0 + alpha) * c + U[Flat(nx - 1, j, ny)] + U[Flat(i, j - 1, ny)] + U[Flat(i, j + 1, ny)]
        + alpha * xOld[Flat(i, j, ny)] + bnd.west[j] + dxs * c * (1.0 - c);
      assert v == Stencil(u, o, bnd, opts, i, j);
      WriteCell(S[..], opts, i, j, v);
      S[Flat(i, j, ny)] := v;
    }
  }

  /** A whole row edge, `j = jend` (north) or `j = 0` (south), for
      `i in range(1, iend)`. */
  method FillNorth(U: array<real>, S: array<real>, xOld: array<real>, bnd: Boundary, opts: Options)
    requires Buffers(U, S, xOld, bnd, opts)
    modifies S
    ensures FillsRegion(S[..], old(S[..]), U[..], xOld[..], bnd, opts, North)
  {
    var nx, ny, alpha := opts.nx, opts.ny, opts.alpha;
    var dxs := 1000.0 * opts.dx * opts.dx;
    ghost var u, o, prev := U[..], xOld[..], S[..];
    FlatInside(nx, ny);
    var j := ny - 1;
    for i := 1 to nx - 1
      invariant U[..] == u && xOld[..] == o
      invariant forall i': nat, j': nat :: i' < nx && j' < ny ==>
        At(S[..], opts, i', j') == if j' == j && 0 < i' < i then Stencil(u, o, bnd, opts, i', j')
                                   else At(prev, opts, i', j')
    {
      var c := U[Flat(i, j, ny)];
      var v := -(4.0 + alpha) * c + U[Flat(i - 1, j, ny)] + U[Flat(i + 1, j, ny)] + U[Flat(i, j - 1, ny)]
        + alpha * xOld[Flat(i, j, ny)] + bnd.north[i] + dxs * c * (1.0 - c);
      assert v == Stencil(u, o, bnd, opts, i, j);
      WriteCell(S[..], opts, i, j, v);
      S[Flat(i, j, ny)] := v;
    }
  }

  method FillSouth(U: array<real>, S: array<real>, xOld: array<real>, bnd: Boundary, opts: Options)
    requires Buffers(U, S, xOld, bnd, opts)
    modifies S
    ensures FillsRegion(S[..], old(S[..]), U[..], xOld[..], bnd, opts, South)
  {
    var nx, ny, alpha := opts.nx, opts.ny, opts.alpha;
    var dxs := 1000.0 * opts.dx * opts.dx;
    ghost var u, o, prev := U[..], xOld[..], S[..];
    FlatInside(nx, ny);
    var j := 0;
    for i := 1 to nx - 1
      invariant U[..] == u && xOld[..] == o
      invariant forall i': nat, j': nat :: i' < nx && j' < ny ==>
        At(S[..], opts, i', j') == if j' == j && 0 < i' < i then Stencil(u, o, bnd, opts, i', j')
                                   else At(prev, opts, i', j')
    {
      var c := U[Flat(i, j, ny)];
      var v := -(4.0 + alpha) * c + U[Flat(i - 1, j, ny)] + U[Flat(i + 1, j, ny)] + U[Flat(i, j + 1, ny)]
        + alpha * xOld[Flat(i, j, ny)] + bnd.south[i] + dxs * c * (1.0 - c);
      assert v == Stencil(u, o, bnd, opts, i, j);
      WriteCell(S[..], opts, i, j, v);
      S[Flat(i, j, ny)] := v;
    }
  }

  /** The four corner cells, each a single assignment. */
  method FillNorthWest(U: array<real>, S: array<real>, xOld: array<real>, bnd: Boundary, opts: Options)
    requires Buffers(U, S, xOld, bnd, opts)
    modifies S
    ensures FillsRegion(S[..], old(S[..]), U[..], xOld[..], bnd, opts, NorthWest)
  {
    var ny, alpha := opts.ny, opts.alpha;
    var dxs := 1000.0 * opts.dx * opts.dx;
    FlatInside(opts.nx, ny);
    var i, j := 0, ny - 1;
    var c := U[Flat(i, j, ny)];
    var v := -(4.0 + alpha) * c + U[Flat(i + 1, j, ny)] + U[Flat(i, j - 1, ny)] + alpha * xOld[Flat(i, j, ny)]
      + bnd.west[j] + bnd.north[i] + dxs * c * (1.0 - c);
    assert v == Stencil(U[..], xOld[..], bnd, opts, i, j);
    WriteCell(S[..], opts, i, j, v);
    S[Flat(i, j, ny)] := v;
  }

  method FillNorthEast(U: array<real>, S: array<real>, xOld: array<real>, bnd: Boundary, opts: Options)
    requires Buffers(U, S, xOld, bnd, opts)
    modifies S
    ensures FillsRegion(S[..], old(S[..]), U[..], xOld[..], bnd, opts, NorthEast)
  {
    var ny, alpha := opts.ny, opts.alpha;
    var dxs := 1000.0 * opts.dx * opts.dx;
    FlatInside(opts.nx, ny);
    var i, j := opts.nx - 1, ny - 1;
    var c := U[Flat(i, j, ny)];
    var v := -(4.0 + alpha) * c + U[Flat(i - 1, j, ny)] + U[Flat(i, j - 1, ny)] + alpha * xOld[Flat(i, j, ny)]
      + bnd.east[j] + bnd.north[i] + dxs * c * (1.0 - c);
    assert v == Stencil(U[..], xOld[..], bnd, opts, i, j);
    WriteCell(S[..], opts, i, j, v);
    S[Flat(i, j, ny)] := v;
  }

  method FillSouthWest(U: array<real>, S: array<real>, xOld: array<real>, bnd: Boundary, opts: Options)
    requires Buffers(U, S, xOld, bnd, opts)
    modifies S
    ensures FillsRegion(S[..], old(S[..]), U[..], xOld[..], bnd, opts, SouthWest)
  {
    var ny, alpha := opts.ny, opts.alpha;
    var dxs := 1000.0 * opts.dx * opts.dx;
    FlatInside(opts.nx, ny);
    var i, j := 0, 0;
    var c := U[Flat(i, j, ny)];
    var v := -(4.0 + alpha) * c + U[Flat(i + 1, j, ny)] + U[Flat(i, j + 1, ny)] + alpha * xOld[Flat(i, j, ny)]
      + bnd.west[j] + bnd.south[i] + dxs * c * (1.0 - c);
    assert v == Stencil(U[..], xOld[..], bnd, opts, i, j);
    WriteCell(S[..], opts, i, j, v);
    S[Flat(i, j, ny)] := v;
  }

  method FillSouthEast(U: array<real>, S: array<real>, xOld: array<real>, bnd: Boundary, opts: Options)
    requires Buffers(U, S, xOld, bnd, opts)
    modifies S
    ensures FillsRegion(S[..], old(S[..]), U[..], xOld[..], bnd, opts, SouthEast)
  {
    var ny, alpha := opts.ny, opts.alpha;
    var dxs := 1000.0 * opts.dx * opts.dx;
    FlatInside(opts.nx, ny);
    var i, j := opts.nx - 1, 0;
    var c := U[Flat(i, j, ny)];
    var v := -(4.0 + alpha) * c + U[Flat(i - 1, j, ny)] + U[Flat(i, j + 1, ny)] + alpha * xOld[Flat(i, j, ny)]
      + bnd.east[j] + bnd.south[i] + dxs * c * (1.0 - c);
    assert v == Stencil(U[..], xOld[..], bnd, opts, i, j);
    WriteCell(S[..], opts, i, j, v);
    S[Flat(i, j, ny)] := v;
  }

  /** `diffusion(U, S, x_old, boundary, options)`: writes every cell of S
      with the stencil case of its region, in the operator's order (interior,
      east, west, north-west corner, north, north-east corner, south-west
      corner, south, south-east corner). U, the old field and the boundary
      are only read; S is the only buffer written. */
  method Diffusion(U: array<real>, S: array<real>, xOld: array<real>, bnd: Boundary, opts: Options)
    requires Buffers(U, S, xOld, bnd, opts)
    modifies S
    ensures Inputs(U[..], xOld[..], bnd, opts)
    ensures forall i: nat, j: nat :: i < opts.nx && j < opts.ny ==>
      At(S[..], opts, i, j) == Stencil(U[..], xOld[..], bnd, opts, i, j)
  {
    ghost var u, o := U[..], xOld[..];
    ghost var s0 := S[..];
    FillInterior(U, S, xOld, bnd, opts);
    FillStep(S[..], s0, u, o, bnd, opts, {}, Interior);
    ghost var s1 := S[..];
    FillEast(U, S, xOld, bnd, opts);
    FillStep(S[..], s1, u, o, bnd, opts, {Interior}, East);
    ghost var s2 := S[..];
    FillWest(U, S, xOld, bnd, opts);
    FillStep(S[..], s2, u, o, bnd, opts, {Interior, East}, West);
    ghost var s3 := S[..];
    FillNorthWest(U, S, xOld, bnd, opts);
    FillStep(S[..], s3, u, o, bnd, opts, {Interior, East, West}, NorthWest);
    ghost var s4 := S[..];
    FillNorth(U, S, xOld, bnd, opts);
    FillStep(S[..], s4, u, o, bnd, opts, {Interior, East, West, NorthWest}, North);
    ghost var s5 := S[..];
    FillNorthEast(U, S, xOld, bnd, opts);
    FillStep(S[..], s5, u, o, bnd, opts, {Interior, East, West, NorthWest, North}, NorthEast);
    ghost var s6 := S[..];
    FillSouthWest(U, S, xOld, bnd, opts);
    FillStep(S[..], s6, u, o, bnd, opts, {Interior, East, West, NorthWest, North, NorthEast}, SouthWest);
    ghost var s7 := S[..];
    FillSouth(U, S, xOld, bnd, opts);
    FillStep(S[..], s7, u, o, bnd, opts, {Interior, East, West, NorthWest, North, NorthEast, SouthWest}, South);
    ghost var s8 := S[..];
    FillSouthEast(U, S, xOld, bnd, opts);
    FillStep(S[..], s8, u, o, bnd, opts,
      {Interior, East, West, NorthWest, North, NorthEast, SouthWest, South}, SouthEast);
    AllRegions(S[..], u, o, bnd, opts);
  }

  /** Every flat offset of the output is a cell, so a buffer holding the
      stencil at every cell, as `Diffusion` leaves S, holds it at every
      offset: offset c is cell (c / ny, c % ny). */
  lemma EveryOffsetIsACell(s: seq<real>, u: seq<real>, xOld: seq<real>, bnd: Boundary, opts: Options)
    requires Inputs(u, xOld, bnd, opts) && |s| == opts.nx * opts.ny
    requires forall i: nat, j: nat :: i < opts.nx && j < opts.ny ==>
      At(s, opts, i, j) == Stencil(u, xOld, bnd, opts, i, j)
    ensures forall c :: 0 <= c < |s| ==>
      c / opts.ny < opts.nx && s[c] == Stencil(u, xOld, bnd, opts, c / opts.ny, c % opts.ny)
  {
    forall c | 0 <= c < |s|
      ensures c / opts.ny < opts.nx && s[c] == Stencil(u, xOld, bnd, opts, c / opts.ny, c % opts.ny)
    {
      CoordsBound(c, opts.nx, opts.ny);
      CoordsFlat(c, opts.ny);
      assert s[c] == At(s, opts, c / opts.ny, c % opts.ny);
    }
  }

  /** Once all nine regions are filled, every cell is. */
  lemma AllRegions(s: seq<real>, u: seq<real>, xOld: seq<real>, bnd: Boundary, opts: Options)
    requires Inputs(u, xOld, bnd, opts) && |s| == opts.nx * opts.ny
    requires Filled(s, u, xOld, bnd, opts,
      {Interior, East, West, NorthWest, North, NorthEast, SouthWest, South, SouthEast})
    ensures forall i: nat, j: nat :: i < opts.nx && j < opts.ny ==>
      At(s, opts, i, j) == Stencil(u, xOld, bnd, opts, i, j)
  {
    forall i: nat, j: nat | i < opts.nx && j < opts.ny
      ensures At(s, opts, i, j) == Stencil(u, xOld, bnd, opts, i, j)
    {
      assert RegionOf(opts, i, j) in
        {Interior, East, West, NorthWest, North, NorthEast, SouthWest, South, SouthEast};
    }
  }

  // ----- Reference stencil with Dirichlet boundaries ---------------------

  /** The value the five-point stencil sees at (p, q), a cell of the grid or
      one step outside it: inside, the field; outside, the boundary value of
      the side that was crossed. */
  function Neighbour(u: seq<real>, bnd: Boundary, opts: Options, p: int, q: int): real
    requires |u| == opts.nx * opts.ny
    requires |bnd.north| >= opts.nx && |bnd.south| >= opts.nx
    requires |bnd.east| >= opts.ny && |bnd.west| >= opts.ny
    requires (0 <= p < opts.nx && -1 <= q <= opts.ny) || (-1 <= p <= opts.nx && 0 <= q < opts.ny)
  {
    if p == -1 then bnd.west[q]
    else if p == opts.nx then bnd.east[q]
    else if q == -1 then bnd.south[p]
    else if q == opts.ny then bnd.north[p]
    else At(u, opts, p, q)
  }

  /** The discretised operator every case is meant to be: the centre term,
      the four neighbours (field or boundary), the time term and the
      reaction. */
  function DirichletStencil(u: seq<real>, xOld: seq<real>, bnd: Boundary, opts: Options, i: nat, j: nat): real
    requires Inputs(u, xOld, bnd, opts) && i < opts.nx && j < opts.ny
  {
    var c := At(u, opts, i, j);
    -(4.0 + opts.alpha) * c
    + Neighbour(u, bnd, opts, i - 1, j) + Neighbour(u, bnd, opts, i + 1, j)
    + Neighbour(u, bnd, opts, i, j - 1) + Neighbour(u, bnd, opts, i, j + 1)
    + opts.alpha * At(xOld, opts, i, j) + Reaction(opts, c)
  }

  /** Eight of the nine cases are the reference stencil. On the west edge
      the operator reads row nx - 1 where the reference reads row 1, and the
      two differ by exactly that. */
  lemma StencilAgainstDirichletAt(u: seq<real>, xOld: seq<real>, bnd: Boundary, opts: Options, i: nat, j: nat)
    requires Inputs(u, xOld, bnd, opts) && i < opts.nx && j < opts.ny
    ensures RegionOf(opts, i, j) != West ==>
      Stencil(u, xOld, bnd, opts, i, j) == DirichletStencil(u, xOld, bnd, opts, i, j)
    ensures RegionOf(opts, i, j) == West ==>
      Stencil(u, xOld, bnd, opts, i, j)
      == DirichletStencil(u, xOld, bnd, opts, i, j) + At(u, opts, opts.nx - 1, j) - At(u, opts, 1, j)
  {
    match RegionOf(opts, i, j)
    case Interior =>
    case East =>
    case West =>
    case NorthWest =>
    case North =>
    case NorthEast =>
    case SouthWest =>
    case South =>
    case SouthEast =>
  }

  /** The same comparison for every cell at once. */
  lemma StencilAgainstDirichlet(u: seq<real>, xOld: seq<real>, bnd: Boundary, opts: Options)
    requires Inputs(u, xOld, bnd, opts)
    ensures forall i: nat, j: nat :: i < opts.nx && j < opts.ny ==>
      (RegionOf(opts, i, j) != West ==> Stencil(u, xOld, bnd, opts, i, j) == DirichletStencil(u, xOld, bnd, opts, i, j))
    ensures forall i: nat, j: nat :: i < opts.nx && j < opts.ny ==>
      (RegionOf(opts, i, j) == West ==>
         Stencil(u, xOld, bnd, opts, i, j)
         == DirichletStencil(u, xOld, bnd, opts, i, j) + At(u, opts, opts.nx - 1, j) - At(u, opts, 1, j))
  {
    forall i: nat, j: nat | i < opts.nx && j < opts.ny
      ensures RegionOf(opts, i, j) != West ==>
        Stencil(u, xOld, bnd, opts, i, j) == DirichletStencil(u, xOld, bnd, opts, i, j)
      ensures RegionOf(opts, i, j) == West ==>
         Stencil(u, xOld, bnd, opts, i, j)
         == DirichletStencil(u, xOld, bnd, opts, i, j) + At(u, opts, opts.nx - 1, j) - At(u, opts, 1, j)
    {
      StencilAgainstDirichletAt(u, xOld, bnd, opts, i, j);
    }
  }

  /** With only two rows (nx = 2) row nx - 1 is row 1, so the west edge is
      the reference stencil too. */
  lemma TwoRowsAreDirichlet(u: seq<real>, xOld: seq<real>, bnd: Boundary, opts: Options)
    requires Inputs(u, xOld, bnd, opts) && opts.nx == 2
    ensures forall i: nat, j: nat :: i < opts.nx && j < opts.ny ==>
      Stencil(u, xOld, bnd, opts, i, j) == DirichletStencil(u, xOld, bnd, opts, i, j)
  {
    StencilAgainstDirichlet(u, xOld, bnd, opts);
  }

  /** Cell (p, q) is (i, j) or one of its four neighbours. */
  predicate Adjacent(p: nat, q: nat, i: nat, j: nat)
  {
    || (p == i && (q == j || q + 1 == j || q == j + 1))
    || (q == j && (p + 1 == i || p == i + 1))
  }

  /** Two fields agree on cell (i, j) and its neighbours in the grid. */
  ghost predicate AgreeAround(u: seq<real>, v: seq<real>, opts: Options, i: nat, j: nat)
    requires |u| == opts.nx * opts.ny && |v| == opts.nx * opts.ny
  {
    forall p: nat, q: nat :: p < opts.nx && q < opts.ny && Adjacent(p, q, i, j) ==>
      At(u, opts, p, q) == At(v, opts, p, q)
  }

  /** The reference stencil is local: the residual at a cell depends on the
      field only at that cell and its four neighbours. */
  lemma DirichletIsLocal(u: seq<real>, v: seq<real>, xOld: seq<real>, bnd: Boundary, opts: Options, i: nat, j: nat)
    requires Inputs(u, xOld, bnd, opts) && Inputs(v, xOld, bnd, opts) && i < opts.nx && j < opts.ny
    requires AgreeAround(u, v, opts, i, j)
    ensures DirichletStencil(u, xOld, bnd, opts, i, j) == DirichletStencil(v, xOld, bnd, opts, i, j)
  {
    assert Adjacent(i, j, i, j);
    NeighbourAgrees(u, v, xOld, bnd, opts, i, j, i - 1, j);
    NeighbourAgrees(u, v, xOld, bnd, opts, i, j, i + 1, j);
    NeighbourAgrees(u, v, xOld, bnd, opts, i, j, i, j - 1);
    NeighbourAgrees(u, v, xOld, bnd, opts, i, j, i, j + 1);
  }

  /** Fields that agree around (i, j) give the same value for each of its
      four neighbours, in the grid or on the boundary. */
  lemma NeighbourAgrees(u: seq<real>, v: seq<real>, xOld: seq<real>, bnd: Boundary, opts: Options,
                        i: nat, j: nat, p: int, q: int)
    requires Inputs(u, xOld, bnd, opts) && Inputs(v, xOld, bnd, opts) && i < opts.nx && j < opts.ny
    requires AgreeAround(u, v, opts, i, j)
    requires ((p == i - 1 || p == i + 1) && q == j) || (p == i && (q == j - 1 || q == j + 1))
    ensures Neighbour(u, bnd, opts, p, q) == Neighbour(v, bnd, opts, p, q)
  {
    if 0 <= p < opts.nx && 0 <= q < opts.ny {
      assert Adjacent(p, q, i, j);
    }
  }

  /** The operator as written is not local on the west edge: on a grid with
      at least three rows, changing the field only at (nx - 1, j), which is
      not a neighbour of (0, j), changes the residual at (0, j) by exactly
      that change. */
  lemma WestEdgeReadsFarRow(u: seq<real>, v: seq<real>, xOld: seq<real>, bnd: Boundary, opts: Options, j: nat)
    requires Inputs(u, xOld, bnd, opts) && Inputs(v, xOld, bnd, opts)
    requires opts.nx >= 3 && 0 < j < opts.ny - 1
    requires forall p: nat, q: nat :: p < opts.nx && q < opts.ny && (p != opts.nx - 1 || q != j) ==>
      At(u, opts, p, q) == At(v, opts, p, q)
    ensures AgreeAround(u, v, opts, 0, j)
    ensures Stencil(u, xOld, bnd, opts, 0, j) - Stencil(v, xOld, bnd, opts, 0, j)
      == At(u, opts, opts.nx - 1, j) - At(v, opts, opts.nx - 1, j)
  {
    assert AgreeAround(u, v, opts, 0, j) by {
      forall p: nat, q: nat | p < opts.nx && q < opts.ny && Adjacent(p, q, 0, j)
        ensures At(u, opts, p, q) == At(v, opts, p, q)
      {
        assert p <= 1;
      }
    }
    DirichletIsLocal(u, v, xOld, bnd, opts, 0, j);
    StencilAgainstDirichletAt(u, xOld, bnd, opts, 0, j);
    StencilAgainstDirichletAt(v, xOld, bnd, opts, 0, j);
    assert At(u, opts, 1, j) == At(v, opts, 1, j);
  }

  /** A concrete instance: on a 3 x 3 grid with the options the driver
      computes for nx = 3 and a time step of 0.1 (dx = 1/2, alpha = 5/2),
      zero old field and zero boundaries, the field that is 1 at (2, 1) and
      0 elsewhere agrees with the zero field around (0, 1), yet the residual
      there is 1 instead of 0. */
  lemma WestEdgeIsNotLocal()
    ensures var opts := Options(3, 3, 0.5, 2.5);
            var zero := seq(9, k => 0.0);
            var u := seq(9, k => if k == 7 then 1.0 else 0.0);
            var bnd := Boundary([0.0, 0.0, 0.0], [0.0, 0.0, 0.0], [0.0, 0.0, 0.0], [0.0, 0.0, 0.0]);
            && Inputs(u, zero, bnd, opts) && Inputs(zero, zero, bnd, opts)
            && AgreeAround(u, zero, opts, 0, 1)
            && Stencil(u, zero, bnd, opts, 0, 1) == 1.0
            && Stencil(zero, zero, bnd, opts, 0, 1) == 0.0
  {
    var opts := Options(3, 3, 0.5, 2.5);
    var zero := seq(9, k => 0.0);
    var u := seq(9, k => if k == 7 then 1.0 else 0.0);
    var bnd := Boundary([0.0, 0.0, 0.0], [0.0, 0.0, 0.0], [0.0, 0.0, 0.0], [0.0, 0.0, 0.0]);
    forall p: nat, q: nat | p < 3 && q < 3 && (p != 2 || q != 1)
      ensures At(u, opts, p, q) == At(zero, opts, p, q)
    {
      FlatCoords(p, q, 3);
    }
    WestEdgeReadsFarRow(u, zero, zero, bnd, opts, 1);
    assert Stencil(zero, zero, bnd, opts, 0, 1) == 0.0 by {
      assert RegionOf(opts, 0, 1) == West;
    }
  }

  /** A field, old field and boundary all equal to the constant c. */
  ghost predicate ConstantState(u: seq<real>, xOld: seq<real>, bnd: Boundary, opts: Options, c: real)
    requires Inputs(u, xOld, bnd, opts)
  {
    && (forall k :: 0 <= k < |u| ==> u[k] == c && xOld[k] == c)
    && (forall k :: 0 <= k < opts.nx ==> bnd.north[k] == c && bnd.south[k] == c)
    && (forall k :: 0 <= k < opts.ny ==> bnd.east[k] == c && bnd.west[k] == c)
  }

  lemma DirichletConstantCell(u: seq<real>, xOld: seq<real>, bnd: Boundary, opts: Options, c: real, i: nat, j: nat)
    requires Inputs(u, xOld, bnd, opts) && ConstantState(u, xOld, bnd, opts, c)
    requires i < opts.nx && j < opts.ny
    ensures DirichletStencil(u, xOld, bnd, opts, i, j) == Reaction(opts, c)
  {
    FlatInside(opts.nx, opts.ny);
    assert At(u, opts, i, j) == c && At(xOld, opts, i, j) == c;
    assert Neighbour(u, bnd, opts, i - 1, j) == c && Neighbour(u, bnd, opts, i + 1, j) == c;
    assert Neighbour(u, bnd, opts, i, j - 1) == c && Neighbour(u, bnd, opts, i, j + 1) == c;
  }

  lemma ConstantCell(u: seq<real>, xOld: seq<real>, bnd: Boundary, opts: Options, c: real, i: nat, j: nat)
    requires Inputs(u, xOld, bnd, opts) && ConstantState(u, xOld, bnd, opts, c)
    requires i < opts.nx && j < opts.ny
    ensures Stencil(u, xOld, bnd, opts, i, j) == Reaction(opts, c)
    ensures DirichletStencil(u, xOld, bnd, opts, i, j) == Reaction(opts, c)
  {
    DirichletConstantCell(u, xOld, bnd, opts, c, i, j);
    StencilAgainstDirichletAt(u, xOld, bnd, opts, i, j);
    FlatBound(opts.nx - 1, j, opts.nx, opts.ny);
    FlatBound(1, j, opts.nx, opts.ny);
    assert At(u, opts, opts.nx - 1, j) == c && At(u, opts, 1, j) == c;
  }

  /** With the field, the old field and all boundaries at one constant c,
      every neighbour sum cancels the centre term and the residual is the
      reaction alone; in particular the zero state gives a zero residual. */
  lemma ConstantStateLeavesReaction(u: seq<real>, xOld: seq<real>, bnd: Boundary, opts: Options, c: real)
    requires Inputs(u, xOld, bnd, opts)
    requires forall k :: 0 <= k < |u| ==> u[k] == c && xOld[k] == c
    requires forall k :: 0 <= k < opts.nx ==> bnd.north[k] == c && bnd.south[k] == c
    requires forall k :: 0 <= k < opts.ny ==> bnd.east[k] == c && bnd.west[k] == c
    ensures forall i: nat, j: nat :: i < opts.nx && j < opts.ny ==>
      Stencil(u, xOld, bnd, opts, i, j) == Reaction(opts, c) &&
      DirichletStencil(u, xOld, bnd, opts, i, j) == Reaction(opts, c)
  {
    assert ConstantState(u, xOld, bnd, opts, c);
    forall i: nat, j: nat | i < opts.nx && j < opts.ny
      ensures Stencil(u, xOld, bnd, opts, i, j) == Reaction(opts, c)
      ensures DirichletStencil(u, xOld, bnd, opts, i, j) == Reaction(opts, c)
    {
      ConstantCell(u, xOld, bnd, opts, c, i, j);
    }
  }

  /** The operator reads `north`/`south` only at indices below nx and
      `east`/`west` only below ny: boundary arrays that agree on those
      prefixes give the same residual everywhere. */
  lemma BoundaryPrefixSuffices(u: seq<real>, xOld: seq<real>, bnd: Boundary, bnd': Boundary, opts: Options)
    requires Inputs(u, xOld, bnd, opts) && Inputs(u, xOld, bnd', opts)
    requires bnd.north[..opts.nx] == bnd'.north[..opts.nx] && bnd.south[..opts.nx] == bnd'.south[..opts.nx]
    requires bnd.east[..opts.ny] == bnd'.east[..opts.ny] && bnd.west[..opts.ny] == bnd'.west[..opts.ny]
    ensures forall i: nat, j: nat :: i < opts.nx && j < opts.ny ==>
      Stencil(u, xOld, bnd, opts, i, j) == Stencil(u, xOld, bnd', opts, i, j)
  {
    forall i: nat, j: nat | i < opts.nx && j < opts.ny
      ensures Stencil(u, xOld, bnd, opts, i, j) == Stencil(u, xOld, bnd', opts, i, j)
    {
      assert bnd.north[i] == bnd.north[..opts.nx][i] && bnd.south[i] == bnd.south[..opts.nx][i];
      assert bnd.east[j] == bnd.east[..opts.ny][j] && bnd.west[j] == bnd.west[..opts.ny][j];
    }
  }

  // ----- The operator with the west edge corrected ------------------------

  /** The reference stencil on the west edge, written out: row 1 inside the
      grid and `west[j]` outside it. */
  lemma WestIntendedValue(u: seq<real>, xOld: seq<real>, bnd: Boundary, opts: Options, j: nat)
    requires Inputs(u, xOld, bnd, opts) && 0 < j < opts.ny - 1
    ensures DirichletStencil(u, xOld, bnd, opts, 0, j)
      == -(4.0 + opts.alpha) * At(u, opts, 0, j) + At(u, opts, 1, j) + At(u, opts, 0, j - 1)
         + At(u, opts, 0, j + 1) + opts.alpha * At(xOld, opts, 0, j) + bnd.west[j]
         + Reaction(opts, At(u, opts, 0, j))
  {
  }

  /** The west edge as intended: the neighbour inside the grid is row 1. */
  method FillWestIntended(U: array<real>, S: array<real>, xOld: array<real>, bnd: Boundary, opts: Options)
    requires Buffers(U, S, xOld, bnd, opts)
    modifies S
    ensures forall i: nat, j: nat :: i < opts.nx && j < opts.ny ==>
      At(S[..], opts, i, j) == if RegionOf(opts, i, j) == West then DirichletStencil(U[..], xOld[..], bnd, opts, i, j)
                               else At(old(S[..]), opts, i, j)
  {
    var nx, ny, alpha := opts.nx, opts.ny, opts.alpha;
    var dxs := 1000.0 * opts.dx * opts.dx;
    ghost var u, o, prev := U[..], xOld[..], S[..];
    FlatInside(nx, ny);
    var i := 0;
    for j := 1 to ny - 1
      invariant U[..] == u && xOld[..] == o
      invariant forall i': nat, j': nat :: i' < nx && j' < ny ==>
        At(S[..], opts, i', j') == if i' == i && 0 < j' < j then DirichletStencil(u, o, bnd, opts, i', j')
                                   else At(prev, opts, i', j')
    {
      var c := U[Flat(i, j, ny)];
      var v := -(4.0 + alpha) * c + U[Flat(i + 1, j, ny)] + U[Flat(i, j - 1, ny)] + U[Flat(i, j + 1, ny)]
        + alpha * xOld[Flat(i, j, ny)] + bnd.west[j] + dxs * c * (1.0 - c);
      WestIntendedValue(u, o, bnd, opts, j);
      assert v == DirichletStencil(u, o, bnd, opts, i, j);
      WriteCell(S[..], opts, i, j, v);
      S[Flat(i, j, ny)] := v;
    }
  }

  /** The operator with the west edge corrected, in the same order: every
      cell of S holds the reference stencil. */
  method DiffusionIntended(U: array<real>, S: array<real>, xOld: array<real>, bnd: Boundary, opts: Options)
    requires Buffers(U, S, xOld, bnd, opts)
    modifies S
    ensures Inputs(U[..], xOld[..], bnd, opts)
    ensures forall i: nat, j: nat :: i < opts.nx && j < opts.ny ==>
      At(S[..], opts, i, j) == DirichletStencil(U[..], xOld[..], bnd, opts, i, j)
  {
    ghost var u, o := U[..], xOld[..];
    StencilAgainstDirichlet(u, o, bnd, opts);
    ghost var s0 := S[..];
    FillInterior(U, S, xOld, bnd, opts);
    FillStep(S[..], s0, u, o, bnd, opts, {}, Interior);
    ghost var s1 := S[..];
    FillEast(U, S, xOld, bnd, opts);
    FillStep(S[..], s1, u, o, bnd, opts, {Interior}, East);
    FillWestIntended(U, S, xOld, bnd, opts);
    ghost var west := S[..];
    assert Filled(west, u, o, bnd, opts, {Interior, East});
    FillNorthWest(U, S, xOld, bnd, opts);
    FillStep(S[..], west, u, o, bnd, opts, {Interior, East}, NorthWest);
    ghost var s4 := S[..];
    FillNorth(U, S, xOld, bnd, opts);
    FillStep(S[..], s4, u, o, bnd, opts, {Interior, East, NorthWest}, North);
    ghost var s5 := S[..];
    FillNorthEast(U, S, xOld, bnd, opts);
    FillStep(S[..], s5, u, o, bnd, opts, {Interior, East, NorthWest, North}, NorthEast);
    ghost var s6 := S[..];
    FillSouthWest(U, S, xOld, bnd, opts);
    FillStep(S[..], s6, u, o, bnd, opts, {Interior, East, NorthWest, North, NorthEast}, SouthWest);
    ghost var s7 := S[..];
    FillSouth(U, S, xOld, bnd, opts);
    FillStep(S[..], s7, u, o, bnd, opts, {Interior, East, NorthWest, North, NorthEast, SouthWest}, South);
    ghost var s8 := S[..];
    FillSouthEast(U, S, xOld, bnd, opts);
    FillStep(S[..], s8, u, o, bnd, opts,
      {Interior, East, NorthWest, North, NorthEast, SouthWest, South}, SouthEast);
    forall i: nat, j: nat | i < opts.nx && j < opts.ny
      ensures At(S[..], opts, i, j) == DirichletStencil(u, o, bnd, opts, i, j)
    {
      var r := RegionOf(opts, i, j);
      assert r in {Interior, East, West, NorthWest, North, NorthEast, SouthWest, South, SouthEast};
      if r == West {
        assert At(S[..], opts, i, j) == At(west, opts, i, j);
      }
    }
  }
}
