/**
 * Rectangular grids of field values, as values and as mutable buffers.
 *
 * A grid value is a sequence of `nx` rows of `ny` reals; the first index is
 * the x node `i`, the second the y node `j`, as in `Un0[ii][jj]`.  Values are
 * exact reals: IEEE rounding is not modelled.
 */
module Grids {

  type Grid = seq<seq<real>>

  /** `g` has `nx` rows, each of `ny` values. */
  predicate IsGrid(g: Grid, nx: int, ny: int)
  {
    |g| == nx && forall i :: 0 <= i < nx ==> |g[i]| == ny
  }

  /** Every node of `g` holds exactly zero. */
  predicate IsZero(g: Grid)
  {
    forall i, j :: 0 <= i < |g| && 0 <= j < |g[i]| ==> g[i][j] == 0.0
  }

  /** The all-zero grid, the value `initializeArray` and `np.zeros` produce. */
  function ZeroGrid(nx: nat, ny: nat): (g: Grid)
    ensures IsGrid(g, nx, ny) && IsZero(g)
  {
    seq(nx, _ => seq(ny, _ => 0.0))
  }

  /** `g` with node (i, j) overwritten by `v`. */
  function Set(g: Grid, i: int, j: int, v: real): Grid
    requires 0 <= i < |g| && 0 <= j < |g[i]|
  {
    g[i := g[i][j := v]]
  }

  /** Two grids of one shape that agree at every node are equal. */
  lemma GridExt(g: Grid, h: Grid, nx: int, ny: int)
    requires IsGrid(g, nx, ny) && IsGrid(h, nx, ny)
    requires forall i, j :: 0 <= i < nx && 0 <= j < ny ==> g[i][j] == h[i][j]
    ensures g == h
  {
    forall i | 0 <= i < nx
      ensures g[i] == h[i]
    {
      assert |g[i]| == |h[i]| == ny;
      assert forall j :: 0 <= j < ny ==> g[i][j] == h[i][j];
    }
  }

  /** The first `n` values of row `i` of a 2D buffer. */
  ghost function RowOf(a: array2<real>, i: int, n: int): (r: seq<real>)
    requires 0 <= i < a.Length0 && 0 <= n <= a.Length1
    reads a
    ensures |r| == n && forall j :: 0 <= j < n ==> r[j] == a[i, j]
    decreases n
  {
    if n == 0 then [] else RowOf(a, i, n - 1) + [a[i, n - 1]]
  }

  /** The first `m` rows of a 2D buffer. */
  ghost function RowsOf(a: array2<real>, m: int): (g: Grid)
    requires 0 <= m <= a.Length0
    reads a
    ensures |g| == m && forall i :: 0 <= i < m ==> g[i] == RowOf(a, i, a.Length1)
    decreases m
  {
    if m == 0 then [] else RowsOf(a, m - 1) + [RowOf(a, m - 1, a.Length1)]
  }

  /** The grid value currently held by a 2D buffer. */
  ghost function Snapshot(a: array2<real>): (g: Grid)
    reads a
    ensures IsGrid(g, a.Length0, a.Length1)
    ensures forall i, j :: 0 <= i < a.Length0 && 0 <= j < a.Length1 ==> g[i][j] == a[i, j]
  {
    RowsOf(a, a.Length0)
  }

  /** The first `n` values of row `i` of slice `k` of a 3D buffer. */
  ghost function SliceRowOf(u: array3<real>, k: int, i: int, n: int): (r: seq<real>)
    requires 0 <= k < u.Length2 && 0 <= i < u.Length0 && 0 <= n <= u.Length1
    reads u
    ensures |r| == n && forall j :: 0 <= j < n ==> r[j] == u[i, j, k]
    decreases n
  {
    if n == 0 then [] else SliceRowOf(u, k, i, n - 1) + [u[i, n - 1, k]]
  }

  /** The first `m` rows of slice `k` of a 3D buffer. */
  ghost function SliceRowsOf(u: array3<real>, k: int, m: int): (g: Grid)
    requires 0 <= k < u.Length2 && 0 <= m <= u.Length0
    reads u
    ensures |g| == m && forall i :: 0 <= i < m ==> g[i] == SliceRowOf(u, k, i, u.Length1)
    decreases m
  {
    if m == 0 then [] else SliceRowsOf(u, k, m - 1) + [SliceRowOf(u, k, m - 1, u.Length1)]
  }

  /** Slice `k` of a 3D buffer along its last axis, as `U_value[:, :, k]`. */
  ghost function Slice(u: array3<real>, k: int): (g: Grid)
    requires 0 <= k < u.Length2
    reads u
    ensures IsGrid(g, u.Length0, u.Length1)
    ensures forall i, j :: 0 <= i < u.Length0 && 0 <= j < u.Length1 ==> g[i][j] == u[i, j, k]
  {
    SliceRowsOf(u, k, u.Length0)
  }
}
