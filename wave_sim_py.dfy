/**
 * wave_sim.py: the class `WaveSimulation2D` with numpy buffers Un1, Un0 and
 * Un_1 for the n+1, n and n-1 time levels and U_value for the stored
 * frames.  Each iteration of `run_simulation` updates Un1 in place
 * (interior, source, boundaries with corners), stores it as frame n, and
 * then `step_time` replaces Un_1 and Un0 by fresh copies of Un0 and Un1.
 */
module WaveSimPy {
  import opened Grids
  import opened Scheme
  import opened Marching
  import opened Kernel

  /** The source node `[50, 50]` of `apply_source`. */
  const SourceX: int := 50
  const SourceY: int := 50

  /** `n_stop`: the number of time steps. */
  const NStop: nat := 150

  /** `np.zeros((Nx, Ny))`: a fresh all-zero buffer. */
  method Zeros(p: Params) returns (a: array2<real>)
    requires p.Valid()
    ensures fresh(a) && Shaped(a, p)
    ensures Snapshot(a) == ZeroGrid(p.nx, p.ny)
  {
    a := new real[p.nx, p.ny];
    forall i, j | 0 <= i < p.nx && 0 <= j < p.ny {
      a[i, j] := 0.0;
    }
    GridExt(Snapshot(a), ZeroGrid(p.nx, p.ny), p.nx, p.ny);
  }

  /** The left and right boundary loop of `update_boundaries`: for each
      jj = 1 .. Ny-2 the left node, then the right node.  Afterwards the
      buffer holds its old contents with both x-normal edges extrapolated. */
  method LeftRightNodes(next: array2<real>, cur: array2<real>, p: Params)
    requires p.Valid() && Shaped(next, p) && Shaped(cur, p) && next != cur
    modifies next
    ensures Snapshot(next) == EdgesDone(old(Snapshot(next)), Snapshot(cur), p, {Left, Right})
  {
    ghost var g := Snapshot(next);
    ghost var c := Snapshot(cur);
    var jj := 1;
    while jj < p.ny - 1
      invariant 1 <= jj <= p.ny - 1
      invariant forall i, j :: 0 <= i < p.nx && 0 <= j < p.ny ==>
        next[i, j] ==
          if i == 0 && 1 <= j < jj then c[1][j] + p.rx * (g[1][j] - c[0][j])
          else if i == p.nx - 1 && 1 <= j < jj then c[p.nx - 2][j] + p.rx * (g[p.nx - 2][j] - c[p.nx - 1][j])
          else g[i][j]
    {
      next[0, jj] := cur[1, jj] + p.rx * (next[1, jj] - cur[0, jj]);
      next[p.nx - 1, jj] := cur[p.nx - 2, jj] + p.rx * (next[p.nx - 2, jj] - cur[p.nx - 1, jj]);
      jj := jj + 1;
    }
    LeftRightArray(next, g, c, p);
  }

  /** A buffer holding `g` with the left and right nodes extrapolated, cell
      by cell, holds `EdgesDone` of `g` for those two edges. */
  lemma LeftRightArray(next: array2<real>, g: Grid, c: Grid, p: Params)
    requires p.Valid() && Shaped(next, p) && Fits(p, g) && Fits(p, c)
    requires forall i, j :: 0 <= i < p.nx && 0 <= j < p.ny ==>
      next[i, j] ==
        if i == 0 && 1 <= j < p.ny - 1 then c[1][j] + p.rx * (g[1][j] - c[0][j])
        else if i == p.nx - 1 && 1 <= j < p.ny - 1 then c[p.nx - 2][j] + p.rx * (g[p.nx - 2][j] - c[p.nx - 1][j])
        else g[i][j]
    ensures Snapshot(next) == EdgesDone(g, c, p, {Left, Right})
  {
    var r := EdgesDone(g, c, p, {Left, Right});
    forall i, j | 0 <= i < p.nx && 0 <= j < p.ny
      ensures next[i, j] == r[i][j]
    {
      if i == 0 && 1 <= j < p.ny - 1 {
        assert RegionOf(p, i, j) == Side(Left);
      } else if i == p.nx - 1 && 1 <= j < p.ny - 1 {
        assert RegionOf(p, i, j) == Side(Right);
      }
    }
    GridExt(Snapshot(next), r, p.nx, p.ny);
  }

  /** The top and bottom boundary loop: for each ii = 1 .. Nx-2 the top
      node, then the bottom node. */
  method TopBottomNodes(next: array2<real>, cur: array2<real>, p: Params)
    requires p.Valid() && Shaped(next, p) && Shaped(cur, p) && next != cur
    modifies next
    ensures Snapshot(next) == EdgesDone(old(Snapshot(next)), Snapshot(cur), p, {Top, Bottom})
  {
    ghost var g := Snapshot(next);
    ghost var c := Snapshot(cur);
    var ii := 1;
    while ii < p.nx - 1
      invariant 1 <= ii <= p.nx - 1
      invariant forall i, j :: 0 <= i < p.nx && 0 <= j < p.ny ==>
        next[i, j] ==
          if 1 <= i < ii && j == p.ny - 1 then c[i][p.ny - 2] + p.ry * (g[i][p.ny - 2] - c[i][p.ny - 1])
          else if 1 <= i < ii && j == 0 then c[i][1] + p.ry * (g[i][1] - c[i][0])
          else g[i][j]
    {
      next[ii, p.ny - 1] := cur[ii, p.ny - 2] + p.ry * (next[ii, p.ny - 2] - cur[ii, p.ny - 1]);
      next[ii, 0] := cur[ii, 1] + p.ry * (next[ii, 1] - cur[ii, 0]);
      ii := ii + 1;
    }
    TopBottomArray(next, g, c, p);
  }

  /** A buffer holding `g` with the top and bottom nodes extrapolated, cell
      by cell, holds `EdgesDone` of `g` for those two edges. */
  lemma TopBottomArray(next: array2<real>, g: Grid, c: Grid, p: Params)
    requires p.Valid() && Shaped(next, p) && Fits(p, g) && Fits(p, c)
    requires forall i, j :: 0 <= i < p.nx && 0 <= j < p.ny ==>
      next[i, j] ==
        if 1 <= i < p.nx - 1 && j == p.ny - 1 then c[i][p.ny - 2] + p.ry * (g[i][p.ny - 2] - c[i][p.ny - 1])
        else if 1 <= i < p.nx - 1 && j == 0 then c[i][1] + p.ry * (g[i][1] - c[i][0])
        else g[i][j]
    ensures Snapshot(next) == EdgesDone(g, c, p, {Top, Bottom})
  {
    var r := EdgesDone(g, c, p, {Top, Bottom});
    forall i, j | 0 <= i < p.nx && 0 <= j < p.ny
      ensures next[i, j] == r[i][j]
    {
      if 1 <= i < p.nx - 1 && j == p.ny - 1 {
        assert RegionOf(p, i, j) == Side(Top);
      } else if 1 <= i < p.nx - 1 && j == 0 {
        assert RegionOf(p, i, j) == Side(Bottom);
      }
    }
    GridExt(Snapshot(next), r, p.nx, p.ny);
  }

  /** The four corner assignments of `update_boundaries`, in its order and
      with its operand order (the last corner adds (1, Ny-1) first). */
  method CornerNodes(next: array2<real>, p: Params)
    requires p.Valid() && Shaped(next, p)
    modifies next
    ensures Snapshot(next) == Corners(old(Snapshot(next)), p)
  {
    ghost var g := Snapshot(next);
    var nx, ny := p.nx, p.ny;
    next[0, 0] := 0.5 * (next[1, 0] + next[0, 1]);
    next[nx - 1, 0] := 0.5 * (next[nx - 2, 0] + next[nx - 1, 1]);
    next[nx - 1, ny - 1] := 0.5 * (next[nx - 2, ny - 1] + next[nx - 1, ny - 2]);
    next[0, ny - 1] := 0.5 * (next[1, ny - 1] + next[0, ny - 2]);
    CornerArray(next, g, p);
  }

  /** The simulation object: the three level buffers, the stored frames and
      the forcing the source samples. */
  class WaveSimulation2D {
    const p: Params
    const nStop: nat
    const forcing: nat -> real
    var un1: array2<real>
    var un0: array2<real>
    var unM1: array2<real>
    var uValue: array3<real>

    /** The source sits at [50, 50], the level buffers have the mesh shape
        and are pairwise distinct, and U_value holds n_stop frames. */
    ghost predicate Valid()
      reads this
    {
      && p.Valid() && p.xs == SourceX && p.ys == SourceY
      && Shaped(un1, p) && Shaped(un0, p) && Shaped(unM1, p)
      && un1 != un0 && un0 != unM1 && unM1 != un1
      && uValue.Length0 == p.nx && uValue.Length1 == p.ny && uValue.Length2 == nStop
    }

    /** The time levels the buffers hold: n-1, n and n+1. */
    ghost function TimeLevels(): Levels
      reads this, un1, un0, unM1
    {
      Levels(Snapshot(unM1), Snapshot(un0), Snapshot(un1))
    }

    /** The field initialisation of `__init__`: three zero level buffers
        and n_stop zero frames. */
    constructor (p: Params, nStop: nat, forcing: nat -> real)
      requires p.Valid() && p.xs == SourceX && p.ys == SourceY
      ensures Valid() && this.p == p && this.nStop == nStop && this.forcing == forcing
      ensures fresh(un1) && fresh(un0) && fresh(unM1) && fresh(uValue)
      ensures TimeLevels() == ZeroLevels(p)
      ensures forall i, j, k :: 0 <= i < p.nx && 0 <= j < p.ny && 0 <= k < nStop ==> uValue[i, j, k] == 0.0
    {
      var a := Zeros(p);
      var b := Zeros(p);
      var d := Zeros(p);
      var u := new real[p.nx, p.ny, nStop];
      forall i, j, k | 0 <= i < p.nx && 0 <= j < p.ny && 0 <= k < nStop {
        u[i, j, k] := 0.0;
      }
      this.p := p;
      this.nStop := nStop;
      this.forcing := forcing;
      un1, un0, unM1, uValue := a, b, d, u;
    }

    /** `apply_source(n)`: Un1[50, 50] becomes the forcing value of step n,
        and no other node changes. */
    method ApplySource(n: nat)
      requires Valid()
      modifies un1
      ensures Valid()
      ensures Snapshot(un1) == Source(old(Snapshot(un1)), p, forcing(n))
    {
      InjectSource(un1, p, forcing(n));
    }

    /** `update_interior`: the interior nodes of Un1 from the stencil on Un0
        and Un_1; the boundary nodes of Un1 keep their values. */
    method UpdateInterior()
      requires Valid()
      modifies un1
      ensures Valid()
      ensures Snapshot(un1) == Interior(old(Snapshot(un1)), Snapshot(un0), Snapshot(unM1), p)
    {
      InteriorPass(un1, un0, unM1, p);
    }

    /** `update_boundaries`: the two grouped edge loops, then the corners.
        The result is that of wave_sim.c's four separate edge loops. */
    method UpdateBoundaries()
      requires Valid()
      modifies un1
      ensures Valid()
      ensures Snapshot(un1) == Corners(ApplyEdges(old(Snapshot(un1)), Snapshot(un0), p, EdgeOrder), p)
    {
      ghost var g, c := Snapshot(un1), Snapshot(un0);
      LeftRightNodes(un1, un0, p);
      TopBottomNodes(un1, un0, p);
      CornerNodes(un1, p);
      EdgesDoneCompose(g, c, p, {Left, Right}, {Top, Bottom});
      assert {Left, Right} + {Top, Bottom} == AllEdges;
      EdgeOrderFinishesAll(g, c, p);
    }

    /** `store_fields(n)`: frame n of U_value becomes a copy of Un1, and
        every other frame keeps its values. */
    method StoreFields(n: nat)
      requires Valid() && n < nStop
      modifies uValue
      ensures Valid()
      ensures Slice(uValue, n) == Snapshot(un1)
      ensures forall k :: 0 <= k < nStop && k != n ==> Slice(uValue, k) == old(Slice(uValue, k))
    {
      forall i, j | 0 <= i < p.nx && 0 <= j < p.ny {
        uValue[i, j, n] := un1[i, j];
      }
      GridExt(Slice(uValue, n), Snapshot(un1), p.nx, p.ny);
      forall k | 0 <= k < nStop && k != n
        ensures Slice(uValue, k) == old(Slice(uValue, k))
      {
        GridExt(Slice(uValue, k), old(Slice(uValue, k)), p.nx, p.ny);
      }
    }

    /** `step_time`: Un_1 and Un0 become fresh copies of Un0 and Un1, not
        aliases, so the next step's writes to Un1 leave them alone. */
    method StepTime()
      requires Valid()
      modifies this
      ensures Valid() && un1 == old(un1) && uValue == old(uValue)
      ensures fresh(unM1) && fresh(un0)
      ensures TimeLevels() == Levels(old(TimeLevels()).cur, old(TimeLevels()).next, old(TimeLevels()).next)
    {
      unM1 := CopyOf(un0);
      un0 := CopyOf(un1);
    }

    /** One iteration of `run_simulation`'s loop, without the plot: the
        three update passes, the store and `step_time`. */
    method Iteration(n: nat)
      requires Valid() && n < nStop
      modifies this, un1, uValue
      ensures Valid() && un1 == old(un1) && uValue == old(uValue)
      ensures TimeLevels() == AdvancePy(old(TimeLevels()), p, forcing(n))
      ensures Slice(uValue, n) == TimeLevels().cur
      ensures forall k :: 0 <= k < nStop && k != n ==> Slice(uValue, k) == old(Slice(uValue, k))
    {
      UpdateInterior();
      ApplySource(n);
      UpdateBoundaries();
      StoreFields(n);
      StepTime();
    }

    /** `run_simulation` without its plotting: n_stop iterations.  Frame k
        holds the frame `FramesPy` records for iteration k, the level
        buffers end holding the levels `RunPy` computes, and Un1 and U_value
        are never replaced. */
    method RunSimulation()
      requires Valid()
      modifies this, un1, uValue
      ensures Valid() && un1 == old(un1) && uValue == old(uValue)
      ensures TimeLevels() == RunPy(old(TimeLevels()), p, forcing, nStop)
      ensures forall k :: 0 <= k < nStop ==> Slice(uValue, k) == FramesPy(old(TimeLevels()), p, forcing, nStop)[k]
    {
      ghost var start := TimeLevels();
      ghost var frames: seq<Grid> := [];
      var n := 0;
      while n < nStop
        invariant 0 <= n <= nStop
        invariant Valid() && un1 == old(un1) && uValue == old(uValue)
        invariant TimeLevels() == RunPy(start, p, forcing, n)
        invariant frames == FramesPy(start, p, forcing, n)
        invariant forall k :: 0 <= k < n ==> Slice(uValue, k) == frames[k]
      {
        label before:
        Iteration(n);
        RunPyNext(start, p, forcing, n);
        ghost var frames' := frames + [TimeLevels().cur];
        forall k | 0 <= k < n + 1
          ensures Slice(uValue, k) == frames'[k]
        {
          if k < n {
            assert Slice(uValue, k) == old@before(Slice(uValue, k));
          }
        }
        frames := frames';
        n := n + 1;
      }
    }
  }

  /** The `__main__` block without its plot: construct, then run from the
      zero levels. */
  method Simulate(p: Params, forcing: nat -> real) returns (s: WaveSimulation2D)
    requires p.Valid() && p.xs == SourceX && p.ys == SourceY
    ensures s.Valid() && s.p == p && s.nStop == NStop && s.forcing == forcing
    ensures s.TimeLevels() == RunPy(ZeroLevels(p), p, forcing, NStop)
    ensures forall k :: 0 <= k < NStop ==> Slice(s.uValue, k) == FramesPy(ZeroLevels(p), p, forcing, NStop)[k]
  {
    s := new WaveSimulation2D(p, NStop, forcing);
    s.RunSimulation();
  }
}
