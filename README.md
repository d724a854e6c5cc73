# Leapfrog kernel of the 2D wave simulation

The program simulates the 2D scalar wave equation on an Nx-by-Ny mesh with an
explicit leapfrog scheme. It comes in two versions, `wave_sim.c` and
`wave_sim.py`, and both hold three time levels: n-1, n and n+1.

Each time step updates the n+1 buffer in place, in a fixed order:
1. The interior nodes get a 5-point stencil.
2. The source node (50, 50) is overwritten with the step's forcing value.
3. The four edges, corners excluded, get a one-way absorbing extrapolation from the interior.
4. Each corner becomes the mean of its two edge neighbours.

The two programs advance time differently:
- `wave_sim.c` rotates its three buffer pointers through `temp`.
- `wave_sim.py` stores the new level as a frame of `U_value`. `step_time` then replaces n-1 and n with fresh copies.

This project models both programs in Dafny and proves what a step does and how the two loops relate.

- `grids.dfy` (`Grids`): a grid is a `seq<seq<real>>`. `Snapshot` reads a 2D buffer as a grid. `Slice` reads one frame of the 3D `U_value` buffer.
- `scheme.dfy` (`Scheme`): the passes as functions on grids (`Interior`, `Source`, `ApplyEdge`, `EdgesDone`, `Corners`, `StepGrid`). `SolvesAt`/`Solves` give an independent reference: the equation each node must satisfy after a step. The lemmas show:
  - the passes produce the unique grid that satisfies every node equation;
  - the edge loops commute;
  - the corner law holds;
  - the source value survives;
  - the step ignores the recycled buffer's old contents;
  - zero levels give a zero step.
- `marching.dfy` (`Marching`): the time loop as functions of the step count.
  - `RunC` models the pointer rotation.
  - `RunPy` models the copies.
  - `FramesPy` gives the frames `wave_sim.py` stores.
  - Lemmas show zero-in/zero-out. They also show that, on the same mesh and forcing, both time-marching methods hold the same n-1 and n levels after every iteration.
- `kernel.dfy` (`Kernel`): the loops both programs write the same way, over `array2<real>` buffers. Each method is proved to leave its buffer holding the `Scheme` function of the old contents.
- `wave_sim_c.dfy` (`WaveSimC`): `initializeArray`, the four separate edge loops and the corner assignments. The class `WaveBuffers` holds the three buffers of `main`, with the step, the reference swap and the time loop.
- `wave_sim_py.dfy` (`WaveSimPy`): the class `WaveSimulation2D`, with its interleaved edge loops, frame store, copying `step_time` and `run_simulation` loop.

The constants θx = Ox², θy = Oy², Rx and Ry are fields of `Params`. The forcing `exp(...)·sin(...)` is a function parameter `forcing: nat -> real`.

`wave_sim.c` rotates its three buffers, while `wave_sim.py` copies instead (`step_time`). On the same mesh and forcing, `CAndPythonAgree` and `FramesMatchC` show that the copying changes no n-1 level, n level or stored frame.

## Model

| member | source | states |
|---|---|---|
| Grids.ZeroGrid | wave_sim.py:54-56 | an Nx-by-Ny grid all of whose nodes are 0.0 |
| Grids.Slice | wave_sim.py:99 | frame k of `U_value` as a grid: node (i, j) is `U_value[i, j, k]`, with the mesh shape |
| Scheme.RegionOf | wave_sim.c:214-265 | a node is interior exactly when 1 <= i < Nx-1 and 1 <= j < Ny-1 (the stencil loop ranges), and a corner exactly when both indices are extreme; every other node belongs to one edge |
| Scheme.Inward | wave_sim.c:229-259 | the node an edge node extrapolates from is an interior node adjacent to it |
| Scheme.CornerNeighboursAreEdges | wave_sim.c:262-265 | both nodes a corner averages are edge nodes, never corners |
| Scheme.Interior | wave_sim.c:214-223 | the interior pass on grids keeps the mesh shape; what it writes is stated by `Kernel.InteriorPass` and `Scheme.StepSolvesScheme` |
| Scheme.Source | wave_sim.c:226-227 | the source node holds the forcing value and every other node is unchanged |
| Scheme.ApplyEdge | wave_sim.c:229-259 | one edge loop on grids keeps the mesh shape; `EdgeThenDone` states what it writes |
| Scheme.ApplyEdges | wave_sim.c:229-259 | edge loops in sequence keep the mesh shape; `EdgesInAnyOrder` characterises the result |
| Scheme.EdgesDone | wave_sim.c:229-259 | the reference edge result (all named edges extrapolated from one grid) keeps the mesh shape |
| Scheme.Corners | wave_sim.c:262-265 | the corner pass on grids keeps the mesh shape; `CornersCells` and `CornerLaw` state what it writes |
| Scheme.StepGrid | wave_sim.c:213-265 | one whole step keeps the mesh shape; `StepCharacterized` states what it is |
| Scheme.EdgeThenDone | wave_sim.c:229-259 | one more edge loop after a set of finished edges equals finishing that set plus the new edge at once |
| Scheme.EdgesInAnyOrder | wave_sim.c:229-259 | any sequence of edge loops, repetitions allowed, yields exactly the edges it names extrapolated from the starting grid |
| Scheme.EdgeOrderIrrelevant | wave_sim.c:229-259 | two orders of the edge loops over the same edges give the same grid: the four edge loops commute |
| Scheme.EdgeOrderFinishesAll | wave_sim.c:229-259 | the C order left, right, top, bottom extrapolates all four edges |
| Scheme.EdgesDoneCompose | wave_sim.py:83-90 | extrapolating one group of edges and then another equals extrapolating their union at once |
| Scheme.CornersCells | wave_sim.c:262-265 | the corner pass changes only the corners, each to the mean of its two neighbours before the pass |
| Scheme.CornersSatisfyLaw | wave_sim.c:262-265 | after the corner pass, each corner is the mean of its two neighbours in the resulting grid |
| Scheme.CornersFromEdges | wave_sim.c:262-265 | the four corner values as the four C assignments compute them from the grid before the pass |
| Scheme.CornersByCells | wave_sim.c:262-265 | a grid that agrees off the corners and holds the four corner means is the corner pass |
| Scheme.CornerLaw | wave_sim.c:262-265 | the corner law in the four written forms, on the grid after the pass |
| Scheme.SolvesFromPasses | wave_sim.c:214-265 | a grid with the interior equations, edges extrapolated from its own interior and averaged corners satisfies every node equation |
| Scheme.AllEdgesDone | wave_sim.c:229-259 | after all four edges, interior nodes are kept and each edge node is its extrapolation |
| Scheme.FinishedStepSolves | wave_sim.c:229-265 | the edge and corner passes after correct interior and source values give a grid satisfying every node equation |
| Scheme.StepSolvesScheme | wave_sim.c:214-265 | the step result satisfies the equation of every node |
| Scheme.SchemeSolutionUnique | wave_sim.c:214-265 | at most one grid satisfies all node equations |
| Scheme.StepCharacterized | wave_sim.c:214-265 | a grid is the step result if and only if it satisfies every node equation |
| Scheme.StaleContentsIrrelevant | wave_sim.c:214-274 | the step result does not depend on what the recycled n+1 buffer held: every node is overwritten |
| Scheme.SourceSurvives | wave_sim.c:226-265 | after the whole step the source node holds the forcing value; the edge and corner passes do not disturb it |
| Scheme.ZeroStep | wave_sim.c:218-265 | zero n and n-1 levels with a zero forcing value give a zero step, whatever the recycled buffer held |
| Scheme.InjectionIsolated | wave_sim.c:214-227 | from all-zero levels, after the interior and source passes only the source node can be nonzero, and it holds the forcing value |
| Marching.ZeroLevels | wave_sim.c:206-208 | the starting state: three all-zero grids of the mesh shape |
| Marching.AdvanceC | wave_sim.c:213-274 | one C iteration keeps the three levels' mesh shape; `AdvanceCRotates` states what they hold |
| Marching.AdvancePy | wave_sim.py:119-125 | one Python iteration keeps the three levels' mesh shape |
| Marching.RunC | wave_sim.c:211-275 | the C levels after any number of iterations keep the mesh shape |
| Marching.RunPy | wave_sim.py:119-125 | the Python levels after any number of iterations keep the mesh shape |
| Marching.FramesPy | wave_sim.py:98-99 | one stored frame per iteration; `FramesPyAt` states what each holds |
| Marching.AdvanceCRotates | wave_sim.c:271-274 | after an iteration n-1 is the old n level, the recycled buffer holds the old n-1 level, and the new n level satisfies every node equation |
| Marching.ZeroPropagates | wave_sim.c:211-265 | one more iteration from all-zero levels with zero forcing stays all-zero |
| Marching.ZeroStaysZero | wave_sim.c:206-275 | from all-zero levels, with zero forcing at every step taken, all three buffers stay exactly zero |
| Marching.AgreementPropagates | wave_sim.py:101-103 | on the same mesh and forcing: if the C and Python loops hold the same n-1 and n levels before an iteration, they do after it |
| Marching.CAndPythonAgree | wave_sim.py:101-103 | on the same mesh and forcing, after every number of iterations the C and Python loops hold the same n-1 and n levels |
| Marching.PythonSourceLaw | wave_sim.py:119-123 | after every Python iteration the n level holds that iteration's forcing value at the source node |
| Marching.FramesPyAt | wave_sim.py:119-123 | stored frame k is the n level after iteration k |
| Marching.StoredSourceValues | wave_sim.py:119-123 | stored frame k holds forcing(k) at the source node |
| Marching.FramesMatchC | wave_sim.py:119-125 | on the same mesh and forcing, stored frame k equals the n level of the C loop after iteration k |
| Kernel.InteriorRow | wave_sim.c:216-222 | the inner `ii` loop writes the stencil into the interior nodes of row jj and changes no other node |
| Kernel.InteriorPass | wave_sim.c:214-223 | the interior loop nest leaves the buffer holding `Interior` of its old contents, reading only the n and n-1 buffers |
| Kernel.InjectSource | wave_sim.c:226-227 | the buffer afterwards holds `Source` of its old contents |
| Kernel.CopyOf | wave_sim.py:102-103 | `copy()` returns a freshly allocated buffer of the same shape holding the same values |
| WaveSimC.InitializeArray | wave_sim.c:114-123 | every node of the leading rows-by-cols block becomes 0.0 and every other node is unchanged |
| WaveSimC.LeftNodes | wave_sim.c:229-235 | the buffer afterwards holds its old contents with the left edge extrapolated |
| WaveSimC.RightNodes | wave_sim.c:237-243 | the buffer afterwards holds its old contents with the right edge extrapolated |
| WaveSimC.TopNodes | wave_sim.c:245-251 | the buffer afterwards holds its old contents with the top edge extrapolated |
| WaveSimC.BottomNodes | wave_sim.c:253-259 | the buffer afterwards holds its old contents with the bottom edge extrapolated |
| WaveSimC.CornerPass | wave_sim.c:261-265 | the buffer afterwards holds `Corners` of its old contents |
| WaveSimC.WaveBuffers.constructor | wave_sim.c:202-208 | three freshly allocated, pairwise distinct buffers of the mesh shape, all zero |
| WaveSimC.WaveBuffers.Step | wave_sim.c:213-265 | Un_p1 ends holding `StepGrid` of the three levels; Un0 and Un_m1 are unchanged |
| WaveSimC.WaveBuffers.SwapReferences | wave_sim.c:270-274 | new Un_m1 is old Un0, new Un0 is old Un_p1, new Un_p1 is old Un_m1; they stay distinct, no buffer is written and none is allocated |
| WaveSimC.WaveBuffers.Iterate | wave_sim.c:211-275 | one iteration takes the levels to `AdvanceC` of the old levels over the same three buffers |
| WaveSimC.WaveBuffers.Run | wave_sim.c:210-275 | after n_stop iterations the buffers hold `RunC` of the starting levels and are still the three allocated at start-up |
| WaveSimC.Simulate | wave_sim.c:199-275 | `main`'s buffers end holding `RunC` from three zero grids after n_stop = 150 iterations |
| WaveSimPy.Zeros | wave_sim.py:54-56 | `np.zeros` returns a fresh all-zero buffer of the mesh shape |
| WaveSimPy.LeftRightNodes | wave_sim.py:82-85 | the interleaved left/right loop leaves the buffer holding its old contents with the left and right edges extrapolated |
| WaveSimPy.TopBottomNodes | wave_sim.py:87-90 | the interleaved top/bottom loop leaves the buffer holding its old contents with the top and bottom edges extrapolated |
| WaveSimPy.CornerNodes | wave_sim.py:92-96 | the four corner assignments, with the last one's operands swapped, leave `Corners` of the old contents |
| WaveSimPy.WaveSimulation2D.constructor | wave_sim.py:53-59 | three fresh, distinct, all-zero level buffers and n_stop all-zero frames |
| WaveSimPy.WaveSimulation2D.ApplySource | wave_sim.py:64-68 | Un1 afterwards holds `Source` of its old contents: [50, 50] is forcing(n) and no other node changes |
| WaveSimPy.WaveSimulation2D.UpdateInterior | wave_sim.py:70-78 | Un1 afterwards holds `Interior` of its old contents, from Un0 and Un_1 |
| WaveSimPy.WaveSimulation2D.UpdateBoundaries | wave_sim.py:80-96 | Un1 ends as after the four separate C edge loops in C order, then the corner pass |
| WaveSimPy.WaveSimulation2D.StoreFields | wave_sim.py:98-99 | frame n of `U_value` equals Un1, and every other frame is unchanged |
| WaveSimPy.WaveSimulation2D.StepTime | wave_sim.py:101-103 | Un_1 and Un0 are fresh buffers, not aliases, holding the old Un0 and Un1; Un1 and `U_value` are kept |
| WaveSimPy.WaveSimulation2D.Iteration | wave_sim.py:119-125 | one loop iteration takes the levels to `AdvancePy` of the old levels, stores the new n level as frame n and keeps every other frame |
| WaveSimPy.WaveSimulation2D.RunSimulation | wave_sim.py:119-125 | after n_stop iterations the levels are `RunPy` of the starting levels and frame k is `FramesPy`'s frame k |
| WaveSimPy.Simulate | wave_sim.py:130-132 | the `__main__` run from zero levels: final levels and all 150 stored frames as `RunPy` and `FramesPy` give them |

## Left out

- Terminal output (`getColor`, `printWave`, the ANSI colour strings, `usleep` pacing) is not modelled. It only reads the field and never writes it.
- Plotting (`plot_solution`, `meshgrid`, `plt.*`) and the time array `T` are not modelled. They are foreign library calls that do not feed back into the field. The coordinate arrays `X` and `Y` are not modelled either, but they do fix the field's shape through `Nx = len(self.X)` and `Ny = len(self.Y)`. The item on Nx and Ny below covers this.
- `allocate2DArray`/`free2DArray` and the row-pointer layout become Dafny's `new` 2D arrays. Allocation failure and the final `free` calls are not modelled.
- The forcing `exp(...)·sin(...)` is a parameter `forcing: nat -> real`, because transcendental functions are not modelled.
- `dt`, `Ox`, `Oy` and the boundary coefficients are derived through `sqrt`. The model takes θx, θy, Rx and Ry as given reals, and stability (CFL) claims are out of scope.
- Nx and Ny are parameters. The float-to-int cast of `wave_sim.c` and `np.arange` of `wave_sim.py` that fix them are not modelled. The classes require the hard-coded source (50, 50) to lie strictly inside the mesh.
  - With the programs' own constants the meshes differ: `(int)(Lx / dx) + 1` gives 84×84 in `wave_sim.c` (lines 42-43), and `len(np.arange(0, Lx + dx, dx))` gives 85×85 in `wave_sim.py` (lines 40-43).
  - So the two programs as written never compute the same field. The agreement lemmas (`AgreementPropagates`, `CAndPythonAgree`, `FramesMatchC`) compare the two time-marching methods, rotating and copying, on a common mesh.
- Values are exact reals, so IEEE rounding is not modelled.
- The finite propagation speed (causality) bound is not stated. It relates step counts to the physical constants, which the model does not carry.
- WaveSimC.Simulate: does not itself promise the zero-in/zero-out behaviour. Its result equals `RunC` from zero levels, and `Marching.ZeroStaysZero` proves that property of `RunC`.
