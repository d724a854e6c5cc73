/**
 * wave_sim.c: three heap buffers Un_p1, Un0 and Un_m1 for the n+1, n and
 * n-1 time levels, zero-filled by `initializeArray`, then `n_stop`
 * iterations of the time-marching loop in `main`.  Each iteration updates
 * Un_p1 in place (interior, source, four edge loops, four corners) and then
 * rotates the three buffer references through `temp`.
 */
module WaveSimC {
  import opened Grids
  import opened Scheme
  import opened Marching
  import opened Kernel

  /** `xs1` and `ys1`: the source node. */
  const SourceX: int := 50
  const SourceY: int := 50

  /** `n_stop`: the number of time steps. */
  const NStop: nat := 150

  /** `initializeArray(array, rows, cols)`: every node of the leading
      rows-by-cols block becomes 0.0 and nothing else changes. */
  method InitializeArray(a: array2<real>, rows: int, cols: int)
    requires rows <= a.Length0 && cols <= a.Length1
    modifies a
    ensures forall i, j :: 0 <= i < a.Length0 && 0 <= j < a.Length1 ==>
      a[i, j] == if i < rows && j < cols then 0.0 else old(a[i, j])
  {
    var i := 0;
    while i < rows
      invariant 0 <= i <= if rows < 0 then 0 else rows
      invariant forall r, s :: 0 <= r < a.Length0 && 0 <= s < a.Length1 ==>
        a[r, s] == if r < i && s < cols then 0.0 else old(a[r, s])
    {
      var j := 0;
      while j < cols
        invariant 0 <= j <= if cols < 0 then 0 else cols
        invariant forall r, s :: 0 <= r < a.Length0 && 0 <= s < a.Length1 ==>
          a[r, s] == if (r < i && s < cols) || (r == i && s < j) then 0.0 else old(a[r, s])
      {
        a[i, j] := 0.0;
        j := j + 1;
      }
      i := i + 1;
    }
  }

  /** "Left nodes": for jj = 1 .. Ny-2, node (0, jj) extrapolated from (1, jj).
      Afterwards the buffer holds `ApplyEdge` of its old contents for the
      left edge. */
  method LeftNodes(next: array2<real>, cur: array2<real>, p: Params)
    requires p.Valid() && Shaped(next, p) && Shaped(cur, p) && next != cur
    modifies next
    ensures Snapshot(next) == ApplyEdge(old(Snapshot(next)), Snapshot(cur), p, Left)
  {
    ghost var g := Snapshot(next);
    ghost var c := Snapshot(cur);
    var jj := 1;
    while jj < p.ny - 1
      invariant 1 <= jj <= p.ny - 1
      invariant forall i, j :: 0 <= i < p.nx && 0 <= j < p.ny ==>
        next[i, j] == if i == 0 && 1 <= j < jj then c[1][j] + p.rx * (g[1][j] - c[0][j]) else g[i][j]
    {
      next[0, jj] := cur[1, jj] + p.rx * (next[1, jj] - cur[0, jj]);
      jj := jj + 1;
    }
    ghost var r := ApplyEdge(g, c, p, Left);
    forall i, j | 0 <= i < p.nx && 0 <= j < p.ny
      ensures next[i, j] == r[i][j]
    {
      if i == 0 && 1 <= j < p.ny - 1 {
        assert RegionOf(p, i, j) == Side(Left);
      }
    }
    GridExt(Snapshot(next), r, p.nx, p.ny);
  }


  /** "Right nodes": node (Nx-1, jj) extrapolated from (Nx-2, jj). */
  method RightNodes(next: array2<real>, cur: array2<real>, p: Params)
    requires p.Valid() && Shaped(next, p) && Shaped(cur, p) && next != cur
    modifies next
    ensures Snapshot(next) == ApplyEdge(old(Snapshot(next)), Snapshot(cur), p, Right)
  {
    ghost var g := Snapshot(next);
    ghost var c := Snapshot(cur);
    var jj := 1;
    while jj < p.ny - 1
      invariant 1 <= jj <= p.ny - 1
      invariant forall i, j :: 0 <= i < p.nx && 0 <= j < p.ny ==>
        next[i, j] == if i == p.nx - 1 && 1 <= j < jj then c[p.nx - 2][j] + p.rx * (g[p.nx - 2][j] - c[p.nx - 1][j]) else g[i][j]
    {
      next[p.nx - 1, jj] := cur[p.nx - 2, jj] + p.rx * (next[p.nx - 2, jj] - cur[p.nx - 1, jj]);
      jj := jj + 1;
    }
    ghost var r := ApplyEdge(g, c, p, Right);
    forall i, j | 0 <= i < p.nx && 0 <= j < p.ny
      ensures next[i, j] == r[i][j]
    {
      if i == p.nx - 1 && 1 <= j < p.ny - 1 {
        assert RegionOf(p, i, j) == Side(Right);
      }
    }
    GridExt(Snapshot(next), r, p.nx, p.ny);
  }


  /** "Top nodes": for ii = 1 .. Nx-2, node (ii, Ny-1) extrapolated from
      (ii, Ny-2). */
  method TopNodes(next: array2<real>, cur: array2<real>, p: Params)
    requires p.Valid() && Shaped(next, p) && Shaped(cur, p) && next != cur
    modifies next
    ensures Snapshot(next) == ApplyEdge(old(Snapshot(next)), Snapshot(cur), p, Top)
  {
    ghost var g := Snapshot(next);
    ghost var c := Snapshot(cur);
    var ii := 1;
    while ii < p.nx - 1
      invariant 1 <= ii <= p.nx - 1
      invariant forall i, j :: 0 <= i < p.nx && 0 <= j < p.ny ==>
        next[i, j] == if 1 <= i < ii && j == p.ny - 1 then c[i][p.ny - 2] + p.ry * (g[i][p.ny - 2] - c[i][p.ny - 1]) else g[i][j]
    {
      next[ii, p.ny - 1] := cur[ii, p.ny - 2] + p.ry * (next[ii, p.ny - 2] - cur[ii, p.ny - 1]);
      ii := ii + 1;
    }
    ghost var r := ApplyEdge(g, c, p, Top);
    forall i, j | 0 <= i < p.nx && 0 <= j < p.ny
      ensures next[i, j] == r[i][j]
    {
      if 1 <= i < p.nx - 1 && j == p.ny - 1 {
        assert RegionOf(p, i, j) == Side(Top);
      }
    }
    GridExt(Snapshot(next), r, p.nx, p.ny);
  }


  /** "Bottom nodes": node (ii, 0) extrapolated from (ii, 1). */
  method BottomNodes(next: array2<real>, cur: array2<real>, p: Params)
    requires p.Valid() && Shaped(next, p) && Shaped(cur, p) && next != cur
    modifies next
    ensures Snapshot(next) == ApplyEdge(old(Snapshot(next)), Snapshot(cur), p, Bottom)
  {
    ghost var g := Snapshot(next);
    ghost var c := Snapshot(cur);
    var ii := 1;
    while ii < p.nx - 1
      invariant 1 <= ii <= p.nx - 1
      invariant forall i, j :: 0 <= i < p.nx && 0 <= j < p.ny ==>
        next[i, j] == if 1 <= i < ii && j == 0 then c[i][1] + p.ry * (g[i][1] - c[i][0]) else g[i][j]
    {
      next[ii, 0] := cur[ii, 1] + p.ry * (next[ii, 1] - cur[ii, 0]);
      ii := ii + 1;
    }
    ghost var r := ApplyEdge(g, c, p, Bottom);
    forall i, j | 0 <= i < p.nx && 0 <= j < p.ny
      ensures next[i, j] == r[i][j]
    {
      if 1 <= i < p.nx - 1 && j == 0 {
        assert RegionOf(p, i, j) == Side(Bottom);
      }
    }
    GridExt(Snapshot(next), r, p.nx, p.ny);
  }


  /** The four corner assignments, in the order wave_sim.c writes them.
      Afterwards the buffer holds `Corners` of its old contents. */
  method CornerPass(next: array2<real>, p: Params)
    requires p.Valid() && Shaped(next, p)
    modifies next
    ensures Snapshot(next) == Corners(old(Snapshot(next)), p)
  {
    ghost var g := Snapshot(next);
    var nx, ny := p.nx, p.ny;
    next[0, 0] := 0.5 * (next[1, 0] + next[0, 1]);
    next[nx - 1, 0] := 0.5 * (next[nx - 2, 0] + next[nx - 1, 1]);
    next[nx - 1, ny - 1] := 0.5 * (next[nx - 2, ny - 1] + next[nx - 1, ny - 2]);
    next[0, ny - 1] := 0.5 * (next[0, ny - 2] + next[1, ny - 1]);
    CornerArray(next, g, p);
  }

  /** The three buffers of `main` and the forcing the source samples. */
  class WaveBuffers {
    const p: Params
    const forcing: nat -> real
    var unP1: array2<real>
    var un0: array2<real>
    var unM1: array2<real>
    /** The three buffers allocated at start-up. */
    ghost const Repr: set<array2<real>>

    /** The source sits at (xs1, ys1), and the three buffers have the mesh
        shape, are pairwise distinct and are the three allocated at
        start-up. */
    ghost predicate Valid()
      reads this
    {
      && Repr == {unP1, un0, unM1}
      && p.Valid() && p.xs == SourceX && p.ys == SourceY
      && Shaped(unP1, p) && Shaped(un0, p) && Shaped(unM1, p)
      && unP1 != un0 && un0 != unM1 && unM1 != unP1
    }

    /** The time levels the buffers hold: n-1, n and the recycled n+1. */
    ghost function TimeLevels(): Levels
      reads this, unP1, un0, unM1
    {
      Levels(Snapshot(unM1), Snapshot(un0), Snapshot(unP1))
    }

    /** Allocation and `initializeArray` of the three buffers: three
        distinct all-zero buffers. */
    constructor (p: Params, forcing: nat -> real)
      requires p.Valid() && p.xs == SourceX && p.ys == SourceY
      ensures Valid() && this.p == p && this.forcing == forcing
      ensures fresh(unP1) && fresh(un0) && fresh(unM1)
      ensures TimeLevels() == ZeroLevels(p)
    {
      var a := new real[p.nx, p.ny];
      var b := new real[p.nx, p.ny];
      var d := new real[p.nx, p.ny];
      InitializeArray(a, p.nx, p.ny);
      InitializeArray(b, p.nx, p.ny);
      InitializeArray(d, p.nx, p.ny);
      this.p := p;
      this.forcing := forcing;
      unP1, un0, unM1 := a, b, d;
      Repr := {a, b, d};
      new;
      var z := ZeroGrid(p.nx, p.ny);
      GridExt(Snapshot(a), z, p.nx, p.ny);
      GridExt(Snapshot(b), z, p.nx, p.ny);
      GridExt(Snapshot(d), z, p.nx, p.ny);
    }

    /** The body of iteration `n` up to the swap: Un_p1 is overwritten with
        the next time level; Un0 and Un_m1 are only read. */
    method Step(n: nat)
      requires Valid()
      modifies unP1
      ensures Valid()
      ensures TimeLevels() == Levels(old(TimeLevels()).prev, old(TimeLevels()).cur,
        StepGrid(old(TimeLevels()).next, old(TimeLevels()).cur, old(TimeLevels()).prev, p, forcing(n)))
    {
      ghost var c, q, g := Snapshot(un0), Snapshot(unM1), Snapshot(unP1);
      InteriorPass(unP1, un0, unM1, p);
      InjectSource(unP1, p, forcing(n));
      ghost var h := Snapshot(unP1);
      LeftNodes(unP1, un0, p);
      RightNodes(unP1, un0, p);
      TopNodes(unP1, un0, p);
      BottomNodes(unP1, un0, p);
      CornerPass(unP1, p);
      EdgeOrderUnfolds(h, c, p);
    }

    /** `temp = Un_m1; Un_m1 = Un0; Un0 = Un_p1; Un_p1 = temp;`: a 3-cycle
        of the references.  No buffer is written or allocated, and the
        three stay distinct. */
    method SwapReferences()
      requires Valid()
      modifies this
      ensures Valid()
      ensures unM1 == old(un0) && un0 == old(unP1) && unP1 == old(unM1)
      ensures TimeLevels() == Levels(old(TimeLevels()).cur, old(TimeLevels()).next, old(TimeLevels()).prev)
    {
      var temp := unM1;
      unM1 := un0;
      un0 := unP1;
      unP1 := temp;
    }

    /** One iteration of the time-marching loop: the step, then the swap. */
    method Iterate(n: nat)
      requires Valid()
      modifies this, unP1
      ensures Valid()
      ensures TimeLevels() == AdvanceC(old(TimeLevels()), p, forcing(n))
    {
      Step(n);
      SwapReferences();
    }

    /** The time-marching loop for n = 0 .. n_stop-1.  The buffers end
        holding the levels `RunC` computes; since `Repr` is fixed, the loop
        only permutes the three buffers it started with. */
    method Run()
      requires Valid()
      modifies this, Repr
      ensures Valid()
      ensures TimeLevels() == RunC(old(TimeLevels()), p, forcing, NStop)
    {
      ghost var start := TimeLevels();
      var n := 0;
      while n < NStop
        invariant 0 <= n <= NStop
        invariant Valid()
        invariant TimeLevels() == RunC(start, p, forcing, n)
      {
        Iterate(n);
        RunCNext(start, p, forcing, n);
        n := n + 1;
      }
    }
  }

  /** `main` without its terminal output: allocate and zero the buffers,
      then march.  The result is `RunC` from three zero grids, so
      `ZeroStaysZero` applies to it. */
  method Simulate(p: Params, forcing: nat -> real) returns (b: WaveBuffers)
    requires p.Valid() && p.xs == SourceX && p.ys == SourceY
    ensures b.Valid() && b.p == p && b.forcing == forcing
    ensures b.TimeLevels() == RunC(ZeroLevels(p), p, forcing, NStop)
  {
    b := new WaveBuffers(p, forcing);
    b.Run();
  }
}
