/**
 * The two passes wave_sim.c and wave_sim.py write identically, over mutable
 * 2D buffers: the interior stencil loop nest and the source assignment.
 * Each is proved to leave the buffer holding the grid the matching `Scheme`
 * function computes from the buffers' values.
 */
module Kernel {
  import opened Grids
  import opened Scheme

  /** `a` is an nx-by-ny buffer. */
  predicate Shaped(a: array2<real>, p: Params)
  {
    a.Length0 == p.nx && a.Length1 == p.ny
  }

  /** The stencil at interior node (i, j), read from the buffers.  This is
      `Scheme.Stencil` on array reads rather than on snapshots: it keeps the
      loop invariants on array cells, which is much cheaper to verify, and
      `InteriorPass` proves the two forms equal once after its loop. */
  function StencilAt(cur: array2<real>, prev: array2<real>, p: Params, i: int, j: int): real
    requires p.Valid() && Shaped(cur, p) && Shaped(prev, p)
    requires 1 <= i < p.nx - 1 && 1 <= j < p.ny - 1
    reads cur, prev
  {
    2.0 * cur[i, j]
    + p.thetaX * (cur[i + 1, j] - 2.0 * cur[i, j] + cur[i - 1, j])
    + p.thetaY * (cur[i, j + 1] - 2.0 * cur[i, j] + cur[i, j - 1])
    - prev[i, j]
  }

  /** The inner `ii` loop for one row `jj`: the interior nodes of row `jj`
      get the stencil, every other node keeps its value. */
  method InteriorRow(next: array2<real>, cur: array2<real>, prev: array2<real>, p: Params, jj: int)
    requires p.Valid() && Shaped(next, p) && Shaped(cur, p) && Shaped(prev, p)
    requires next != cur && next != prev && 1 <= jj < p.ny - 1
    modifies next
    ensures forall i, j :: 0 <= i < p.nx && 0 <= j < p.ny ==>
      next[i, j] == if 1 <= i < p.nx - 1 && j == jj then StencilAt(cur, prev, p, i, j) else old(next[i, j])
  {
    var ii := 1;
    while ii < p.nx - 1
      invariant 1 <= ii <= p.nx - 1
      invariant forall i, j :: 0 <= i < p.nx && 0 <= j < p.ny ==>
        next[i, j] == if 1 <= i < ii && j == jj then StencilAt(cur, prev, p, i, j) else old(next[i, j])
    {
      next[ii, jj] := 2.0 * cur[ii, jj]
        + p.thetaX * (cur[ii + 1, jj] - 2.0 * cur[ii, jj] + cur[ii - 1, jj])
        + p.thetaY * (cur[ii, jj + 1] - 2.0 * cur[ii, jj] + cur[ii, jj - 1])
        - prev[ii, jj];
      ii := ii + 1;
    }
  }

  /** The interior loop nest: `jj` outer, `ii` inner, writing `next[ii, jj]`
      from the 5-point stencil on `cur` and `prev`.  Afterwards `next` holds
      `Interior` of its old contents: every interior node is the stencil and
      every boundary node is untouched. */
  method InteriorPass(next: array2<real>, cur: array2<real>, prev: array2<real>, p: Params)
    requires p.Valid() && Shaped(next, p) && Shaped(cur, p) && Shaped(prev, p)
    requires next != cur && next != prev
    modifies next
    ensures Snapshot(next) == Interior(old(Snapshot(next)), Snapshot(cur), Snapshot(prev), p)
  {
    ghost var g := Snapshot(next);
    var jj := 1;
    while jj < p.ny - 1
      invariant 1 <= jj <= p.ny - 1
      invariant forall i, j :: 0 <= i < p.nx && 0 <= j < p.ny ==>
        next[i, j] == if 1 <= i < p.nx - 1 && 1 <= j < jj then StencilAt(cur, prev, p, i, j) else g[i][j]
    {
      InteriorRow(next, cur, prev, p, jj);
      jj := jj + 1;
    }
    ghost var c, q := Snapshot(cur), Snapshot(prev);
    forall i, j | 1 <= i < p.nx - 1 && 1 <= j < p.ny - 1
      ensures StencilAt(cur, prev, p, i, j) == Stencil(c, q, p, i, j)
    {
    }
    GridExt(Snapshot(next), Interior(g, c, q, p), p.nx, p.ny);
  }

  /** The source assignment `next[xs, ys] := src`. */
  method InjectSource(next: array2<real>, p: Params, src: real)
    requires p.Valid() && Shaped(next, p)
    modifies next
    ensures Snapshot(next) == Source(old(Snapshot(next)), p, src)
  {
    ghost var g := Snapshot(next);
    next[p.xs, p.ys] := src;
    GridExt(Snapshot(next), Source(g, p, src), p.nx, p.ny);
  }

  /** A buffer that agrees with `g` off the corners and holds the four
      corner means of `g` holds the corner pass of `g`. */
  lemma CornerArray(next: array2<real>, g: Grid, p: Params)
    requires p.Valid() && Shaped(next, p) && Fits(p, g)
    requires forall i, j | 0 <= i < p.nx && 0 <= j < p.ny && !((i == 0 || i == p.nx - 1) && (j == 0 || j == p.ny - 1))
      :: next[i, j] == g[i][j]
    requires next[0, 0] == 0.5 * (g[1][0] + g[0][1])
    requires next[p.nx - 1, 0] == 0.5 * (g[p.nx - 2][0] + g[p.nx - 1][1])
    requires next[p.nx - 1, p.ny - 1] == 0.5 * (g[p.nx - 2][p.ny - 1] + g[p.nx - 1][p.ny - 2])
    requires next[0, p.ny - 1] == 0.5 * (g[0][p.ny - 2] + g[1][p.ny - 1])
    ensures Snapshot(next) == Corners(g, p)
  {
    CornersByCells(g, Snapshot(next), p);
  }

  /** A fresh buffer holding the same values as `a`, as numpy's `copy()`. */
  method CopyOf(a: array2<real>) returns (b: array2<real>)
    ensures fresh(b) && b.Length0 == a.Length0 && b.Length1 == a.Length1
    ensures Snapshot(b) == Snapshot(a)
  {
    b := new real[a.Length0, a.Length1];
    forall i, j | 0 <= i < a.Length0 && 0 <= j < a.Length1 {
      b[i, j] := a[i, j];
    }
    GridExt(Snapshot(b), Snapshot(a), a.Length0, a.Length1);
  }
}
