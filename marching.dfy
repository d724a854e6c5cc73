/**
 * The time-marching loop as a function of the step count.
 *
 * Each step computes the n+1 level and then moves the levels on.  wave_sim.c
 * rotates its three buffers, so the recycled buffer for the next step holds
 * the old n-1 level; wave_sim.py copies n into n-1 and n+1 into n and leaves
 * the n+1 buffer holding the level it just computed.  Both run the same
 * step, and since a step overwrites every node of the recycled buffer the
 * two time-marching methods compute the same levels on the same mesh and
 * forcing.  The two programs' own constants give different meshes (84 by 84
 * and 85 by 85), so they are compared here on a common `Params`.
 */
module Marching {
  import opened Grids
  import opened Scheme

  /** The three time levels n-1, n and n+1 as held by the three buffers. */
  datatype Levels = Levels(prev: Grid, cur: Grid, next: Grid)

  predicate LevelsFit(p: Params, l: Levels)
  {
    Fits(p, l.prev) && Fits(p, l.cur) && Fits(p, l.next)
  }

  predicate LevelsZero(l: Levels)
  {
    IsZero(l.prev) && IsZero(l.cur) && IsZero(l.next)
  }

  /** The state both programs start from: three zero grids. */
  function ZeroLevels(p: Params): (l: Levels)
    requires p.Valid()
    ensures LevelsFit(p, l) && LevelsZero(l)
  {
    var z := ZeroGrid(p.nx, p.ny);
    Levels(z, z, z)
  }

  /** One C iteration: the step, then the pointer rotation through `temp`. */
  function AdvanceC(l: Levels, p: Params, src: real): (r: Levels)
    requires p.Valid() && LevelsFit(p, l)
    ensures LevelsFit(p, r)
  {
    Levels(l.cur, StepGrid(l.next, l.cur, l.prev, p, src), l.prev)
  }

  /** One Python iteration: the step, then `step_time`'s two copies. */
  function AdvancePy(l: Levels, p: Params, src: real): (r: Levels)
    requires p.Valid() && LevelsFit(p, l)
    ensures LevelsFit(p, r)
  {
    var s := StepGrid(l.next, l.cur, l.prev, p, src);
    Levels(l.cur, s, s)
  }

  /** The C levels after the iterations n = 0 .. steps-1. */
  function RunC(l: Levels, p: Params, forcing: nat -> real, steps: nat): (r: Levels)
    requires p.Valid() && LevelsFit(p, l)
    ensures LevelsFit(p, r)
    decreases steps
  {
    if steps == 0 then l else AdvanceC(RunC(l, p, forcing, steps - 1), p, forcing(steps - 1))
  }

  /** The Python levels after the iterations n = 0 .. steps-1. */
  function RunPy(l: Levels, p: Params, forcing: nat -> real, steps: nat): (r: Levels)
    requires p.Valid() && LevelsFit(p, l)
    ensures LevelsFit(p, r)
    decreases steps
  {
    if steps == 0 then l else AdvancePy(RunPy(l, p, forcing, steps - 1), p, forcing(steps - 1))
  }

  /** One more C iteration. */
  lemma RunCNext(l: Levels, p: Params, forcing: nat -> real, n: nat)
    requires p.Valid() && LevelsFit(p, l)
    ensures RunC(l, p, forcing, n + 1) == AdvanceC(RunC(l, p, forcing, n), p, forcing(n))
  {
  }

  /** One more Python iteration. */
  lemma RunPyNext(l: Levels, p: Params, forcing: nat -> real, n: nat)
    requires p.Valid() && LevelsFit(p, l)
    ensures RunPy(l, p, forcing, n + 1) == AdvancePy(RunPy(l, p, forcing, n), p, forcing(n))
  {
  }

  /** The frames wave_sim.py stores: after iteration k, the n level. */
  function FramesPy(l: Levels, p: Params, forcing: nat -> real, steps: nat): (fs: seq<Grid>)
    requires p.Valid() && LevelsFit(p, l)
    ensures |fs| == steps
    decreases steps
  {
    if steps == 0 then [] else FramesPy(l, p, forcing, steps - 1) + [RunPy(l, p, forcing, steps).cur]
  }

  /** The C rotation keeps the buffers' contents: after an iteration, the
      n-1 level is the old n level, the recycled buffer holds the old n-1
      level, and the new n level satisfies the node equations. */
  lemma AdvanceCRotates(l: Levels, p: Params, src: real)
    requires p.Valid() && LevelsFit(p, l)
    ensures var r := AdvanceC(l, p, src);
      r.prev == l.cur && r.next == l.prev && Solves(r.cur, l.cur, l.prev, p, src)
  {
    StepSolvesScheme(l.next, l.cur, l.prev, p, src);
  }

  /** One more C iteration from an all-zero state with a zero source value
      leaves all three buffers zero. */
  lemma ZeroPropagates(l: Levels, p: Params, forcing: nat -> real, steps: nat)
    requires p.Valid() && LevelsFit(p, l) && steps > 0
    requires LevelsZero(RunC(l, p, forcing, steps - 1)) && forcing(steps - 1) == 0.0
    ensures LevelsZero(RunC(l, p, forcing, steps))
  {
    var m := RunC(l, p, forcing, steps - 1);
    ZeroStep(m.next, m.cur, m.prev, p);
  }

  /** With zero initial levels and a forcing that is zero at every step
      taken, all three C buffers stay exactly zero. */
  lemma ZeroStaysZero(l: Levels, p: Params, forcing: nat -> real, steps: nat)
    requires p.Valid() && LevelsFit(p, l) && LevelsZero(l)
    requires forall k: nat :: k < steps ==> forcing(k) == 0.0
    ensures LevelsZero(RunC(l, p, forcing, steps))
  {
    var n := 0;
    while n < steps
      invariant n <= steps
      invariant LevelsZero(RunC(l, p, forcing, n))
    {
      n := n + 1;
      ZeroPropagates(l, p, forcing, n);
    }
  }

  /** On the same mesh and forcing: if the C and Python loops agree on the
      n-1 and n levels before an iteration, they agree after it. */
  lemma AgreementPropagates(l: Levels, p: Params, forcing: nat -> real, steps: nat)
    requires p.Valid() && LevelsFit(p, l) && steps > 0
    requires RunC(l, p, forcing, steps - 1).prev == RunPy(l, p, forcing, steps - 1).prev
    requires RunC(l, p, forcing, steps - 1).cur == RunPy(l, p, forcing, steps - 1).cur
    ensures RunC(l, p, forcing, steps).prev == RunPy(l, p, forcing, steps).prev
    ensures RunC(l, p, forcing, steps).cur == RunPy(l, p, forcing, steps).cur
  {
    var c := RunC(l, p, forcing, steps - 1);
    var q := RunPy(l, p, forcing, steps - 1);
    StaleContentsIrrelevant(c.next, q.next, c.cur, c.prev, p, forcing(steps - 1));
  }

  /** On the same mesh and forcing, the C and Python loops hold the same n-1
      and n levels after every iteration; only the recycled n+1 buffer
      differs. */
  lemma CAndPythonAgree(l: Levels, p: Params, forcing: nat -> real, steps: nat)
    requires p.Valid() && LevelsFit(p, l)
    ensures RunC(l, p, forcing, steps).prev == RunPy(l, p, forcing, steps).prev
    ensures RunC(l, p, forcing, steps).cur == RunPy(l, p, forcing, steps).cur
  {
    var n := 0;
    while n < steps
      invariant n <= steps
      invariant RunC(l, p, forcing, n).prev == RunPy(l, p, forcing, n).prev
      invariant RunC(l, p, forcing, n).cur == RunPy(l, p, forcing, n).cur
    {
      n := n + 1;
      AgreementPropagates(l, p, forcing, n);
    }
  }

  /** After every Python iteration the n level holds the forcing value of
      that iteration at the source node. */
  lemma PythonSourceLaw(l: Levels, p: Params, forcing: nat -> real, steps: nat)
    requires p.Valid() && LevelsFit(p, l) && steps > 0
    ensures RunPy(l, p, forcing, steps).cur[p.xs][p.ys] == forcing(steps - 1)
  {
    var m := RunPy(l, p, forcing, steps - 1);
    SourceSurvives(m.next, m.cur, m.prev, p, forcing(steps - 1));
  }

  /** Frame k of wave_sim.py is the n level after iteration k. */
  lemma {:induction false} FramesPyAt(l: Levels, p: Params, forcing: nat -> real, steps: nat, k: nat)
    requires p.Valid() && LevelsFit(p, l) && k < steps
    ensures FramesPy(l, p, forcing, steps)[k] == RunPy(l, p, forcing, k + 1).cur
    decreases steps
  {
    var fs := FramesPy(l, p, forcing, steps - 1);
    var last := RunPy(l, p, forcing, steps).cur;
    assert FramesPy(l, p, forcing, steps) == fs + [last];
    if k < steps - 1 {
      FramesPyAt(l, p, forcing, steps - 1, k);
      assert (fs + [last])[k] == fs[k];
    }
  }

  /** Every stored frame holds that iteration's forcing value at the source
      node. */
  lemma StoredSourceValues(l: Levels, p: Params, forcing: nat -> real, steps: nat, k: nat)
    requires p.Valid() && LevelsFit(p, l) && k < steps
    ensures var f := FramesPy(l, p, forcing, steps)[k];
      f == RunPy(l, p, forcing, k + 1).cur && f[p.xs][p.ys] == forcing(k)
  {
    FramesPyAt(l, p, forcing, steps, k);
    PythonSourceLaw(l, p, forcing, k + 1);
  }

  /** On the same mesh and forcing, every stored frame is the n level the C
      loop holds after the same iteration. */
  lemma FramesMatchC(l: Levels, p: Params, forcing: nat -> real, steps: nat, k: nat)
    requires p.Valid() && LevelsFit(p, l) && k < steps
    ensures FramesPy(l, p, forcing, steps)[k] == RunC(l, p, forcing, k + 1).cur
  {
    FramesPyAt(l, p, forcing, steps, k);
    CAndPythonAgree(l, p, forcing, k + 1);
  }
}
