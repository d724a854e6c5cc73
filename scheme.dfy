/**
 * One leapfrog step of the 2D scalar wave equation, as functions on grid
 * values.
 *
 * A step builds the n+1 level from the n level (`cur`) and the n-1 level
 * (`prev`) in a fixed sequence of passes over the recycled buffer (`next`):
 * the 5-point interior stencil, the point source, the four one-way absorbing
 * edges and the corner averages.  `Solves` states, node by node, the
 * equations the finished grid must satisfy; the lemmas show that the passes
 * produce the one grid that satisfies them, whatever `next` held before.
 */
module Scheme {
  import opened Grids

  /** Mesh size, source node and the scheme's derived coefficients:
      thetaX = Ox², thetaY = Oy², and the edge coefficients
      rx = (c·dt − dx)/(c·dt + dx), ry = (c·dt − dy)/(c·dt + dy). */
  datatype Params = Params(nx: int, ny: int, xs: int, ys: int,
                           thetaX: real, thetaY: real, rx: real, ry: real)
  {
    /** At least one interior node, and the source strictly inside. */
    predicate Valid()
    {
      nx >= 3 && ny >= 3 && 0 < xs < nx - 1 && 0 < ys < ny - 1
    }
  }

  predicate Fits(p: Params, g: Grid)
  {
    IsGrid(g, p.nx, p.ny)
  }

  predicate InRange(p: Params, i: int, j: int)
  {
    0 <= i < p.nx && 0 <= j < p.ny
  }

  datatype Edge = Left | Right | Top | Bottom

  /** Left is i = 0, Right i = nx-1, Bottom j = 0, Top j = ny-1. */
  datatype Region = Inner | Side(edge: Edge) | Corner

  /** Which pass owns node (i, j). Edges exclude the corners. */
  function RegionOf(p: Params, i: int, j: int): (r: Region)
    requires InRange(p, i, j)
    ensures r == Inner <==> 1 <= i < p.nx - 1 && 1 <= j < p.ny - 1
    ensures r == Corner <==> (i == 0 || i == p.nx - 1) && (j == 0 || j == p.ny - 1)
  {
    if 1 <= i < p.nx - 1 && 1 <= j < p.ny - 1 then Inner
    else if i == 0 && 1 <= j < p.ny - 1 then Side(Left)
    else if i == p.nx - 1 && 1 <= j < p.ny - 1 then Side(Right)
    else if j == p.ny - 1 && 1 <= i < p.nx - 1 then Side(Top)
    else if j == 0 && 1 <= i < p.nx - 1 then Side(Bottom)
    else Corner
  }

  /** The interior neighbour an edge node extrapolates from. */
  function Inward(p: Params, e: Edge, i: int, j: int): (c: (int, int))
    requires p.Valid() && InRange(p, i, j) && RegionOf(p, i, j) == Side(e)
    ensures InRange(p, c.0, c.1) && RegionOf(p, c.0, c.1) == Inner
    ensures (c.0 == i && (c.1 == j + 1 || c.1 == j - 1)) || (c.1 == j && (c.0 == i + 1 || c.0 == i - 1))
  {
    match e
    case Left => (i + 1, j)
    case Right => (i - 1, j)
    case Top => (i, j - 1)
    case Bottom => (i, j + 1)
  }

  /** Rx on the x-normal edges, Ry on the y-normal edges. */
  function Coefficient(p: Params, e: Edge): real
  {
    if e == Left || e == Right then p.rx else p.ry
  }

  /** The x-neighbour column and y-neighbour row a corner averages. */
  function XNeighbour(p: Params, i: int): int
  {
    if i == 0 then 1 else p.nx - 2
  }

  function YNeighbour(p: Params, j: int): int
  {
    if j == 0 then 1 else p.ny - 2
  }

  /** A corner's two neighbours are edge nodes, never corners. */
  lemma CornerNeighboursAreEdges(p: Params, i: int, j: int)
    requires p.Valid() && InRange(p, i, j) && RegionOf(p, i, j) == Corner
    ensures InRange(p, XNeighbour(p, i), j) && RegionOf(p, XNeighbour(p, i), j).Side?
    ensures InRange(p, i, YNeighbour(p, j)) && RegionOf(p, i, YNeighbour(p, j)).Side?
  {
  }

  // ---------------------------------------------------------------------------
  // The node formulas

  /** The explicit 5-point stencil at an interior node. */
  function Stencil(cur: Grid, prev: Grid, p: Params, i: int, j: int): real
    requires Fits(p, cur) && Fits(p, prev)
    requires 1 <= i < p.nx - 1 && 1 <= j < p.ny - 1
  {
    2.0 * cur[i][j]
    + p.thetaX * (cur[i + 1][j] - 2.0 * cur[i][j] + cur[i - 1][j])
    + p.thetaY * (cur[i][j + 1] - 2.0 * cur[i][j] + cur[i][j - 1])
    - prev[i][j]
  }

  /** One-way absorbing extrapolation at edge node (i, j) of edge `e`:
      cur[inward] + R·(g[inward] − cur[self]). Reads `g` only at the
      interior neighbour. */
  function Absorb(g: Grid, cur: Grid, p: Params, e: Edge, i: int, j: int): real
    requires p.Valid() && Fits(p, g) && Fits(p, cur)
    requires InRange(p, i, j) && RegionOf(p, i, j) == Side(e)
  {
    var (a, b) := Inward(p, e, i, j);
    cur[a][b] + Coefficient(p, e) * (g[a][b] - cur[i][j])
  }

  // ---------------------------------------------------------------------------
  // The passes

  /** The interior pass: every Inner node from the stencil, every other node
      left as the buffer held it. */
  function Interior(next: Grid, cur: Grid, prev: Grid, p: Params): (r: Grid)
    requires p.Valid() && Fits(p, next) && Fits(p, cur) && Fits(p, prev)
    ensures Fits(p, r)
  {
    seq(p.nx, i requires 0 <= i < p.nx =>
      seq(p.ny, j requires 0 <= j < p.ny =>
        if RegionOf(p, i, j) == Inner then Stencil(cur, prev, p, i, j) else next[i][j]))
  }

  /** The source pass: node (xs, ys) overwritten, no other node changed. */
  function Source(g: Grid, p: Params, src: real): (r: Grid)
    requires p.Valid() && Fits(p, g)
    ensures Fits(p, r) && r[p.xs][p.ys] == src
    ensures forall i, j :: InRange(p, i, j) && (i != p.xs || j != p.ys) ==> r[i][j] == g[i][j]
  {
    Set(g, p.xs, p.ys, src)
  }

  /** One edge loop: the nodes of edge `e` (corners excluded) extrapolated,
      every other node unchanged. */
  function ApplyEdge(g: Grid, cur: Grid, p: Params, e: Edge): (r: Grid)
    requires p.Valid() && Fits(p, g) && Fits(p, cur)
    ensures Fits(p, r)
  {
    seq(p.nx, i requires 0 <= i < p.nx =>
      seq(p.ny, j requires 0 <= j < p.ny =>
        if RegionOf(p, i, j) == Side(e) then Absorb(g, cur, p, e, i, j) else g[i][j]))
  }

  /** The edge loops run one after another in the order `es`. */
  function ApplyEdges(g: Grid, cur: Grid, p: Params, es: seq<Edge>): (r: Grid)
    requires p.Valid() && Fits(p, g) && Fits(p, cur)
    ensures Fits(p, r)
    decreases |es|
  {
    if es == [] then g else ApplyEdges(ApplyEdge(g, cur, p, es[0]), cur, p, es[1..])
  }

  /** Reference for the edge loops: the nodes of every edge in `done`
      extrapolated at once from `g`, every other node as in `g`. */
  function EdgesDone(g: Grid, cur: Grid, p: Params, done: set<Edge>): (r: Grid)
    requires p.Valid() && Fits(p, g) && Fits(p, cur)
    ensures Fits(p, r)
  {
    seq(p.nx, i requires 0 <= i < p.nx =>
      seq(p.ny, j requires 0 <= j < p.ny =>
        var reg := RegionOf(p, i, j);
        if reg.Side? && reg.edge in done then Absorb(g, cur, p, reg.edge, i, j) else g[i][j]))
  }

  /** The corner pass: each corner becomes the mean of its two edge
      neighbours, and no other node changes.  A corner reads only edge nodes
      (`CornerNeighboursAreEdges`); the sequential corner assignments of
      `WaveSimC.CornerPass` and `WaveSimPy.CornerNodes` are proved to give
      this grid. */
  function Corners(g: Grid, p: Params): (r: Grid)
    requires p.Valid() && Fits(p, g)
    ensures Fits(p, r)
  {
    seq(p.nx, i requires 0 <= i < p.nx =>
      seq(p.ny, j requires 0 <= j < p.ny =>
        if RegionOf(p, i, j) == Corner
        then 0.5 * (g[XNeighbour(p, i)][j] + g[i][YNeighbour(p, j)])
        else g[i][j]))
  }

  /** The order of the edge loops in wave_sim.c. */
  const EdgeOrder: seq<Edge> := [Left, Right, Top, Bottom]

  const AllEdges: set<Edge> := {Left, Right, Top, Bottom}

  /** The edge loops in wave_sim.c's order, written out. */
  lemma EdgeOrderUnfolds(g: Grid, cur: Grid, p: Params)
    requires p.Valid() && Fits(p, g) && Fits(p, cur)
    ensures ApplyEdges(g, cur, p, EdgeOrder)
      == ApplyEdge(ApplyEdge(ApplyEdge(ApplyEdge(g, cur, p, Left), cur, p, Right), cur, p, Top), cur, p, Bottom)
  {
    var g1 := ApplyEdge(g, cur, p, Left);
    var g2 := ApplyEdge(g1, cur, p, Right);
    var g3 := ApplyEdge(g2, cur, p, Top);
    assert EdgeOrder[1..] == [Right, Top, Bottom] && [Right, Top, Bottom][1..] == [Top, Bottom];
    assert [Top, Bottom][1..] == [Bottom] && [Bottom][1..] == [];
  }

  /** A whole step: interior, source, edges, corners. */
  function StepGrid(next: Grid, cur: Grid, prev: Grid, p: Params, src: real): (r: Grid)
    requires p.Valid() && Fits(p, next) && Fits(p, cur) && Fits(p, prev)
    ensures Fits(p, r)
  {
    Corners(ApplyEdges(Source(Interior(next, cur, prev, p), p, src), cur, p, EdgeOrder), p)
  }

  // ---------------------------------------------------------------------------
  // The equations a finished step satisfies

  /** The equation of node (i, j): the source value at the source node, the
      stencil at other interior nodes, the absorbing extrapolation from the
      grid's own interior on edges, and on corners the mean of the grid's
      own edge neighbours. */
  predicate SolvesAt(g: Grid, cur: Grid, prev: Grid, p: Params, src: real, i: int, j: int)
    requires p.Valid() && Fits(p, g) && Fits(p, cur) && Fits(p, prev) && InRange(p, i, j)
  {
    match RegionOf(p, i, j)
    case Inner => g[i][j] == if i == p.xs && j == p.ys then src else Stencil(cur, prev, p, i, j)
    case Side(e) => g[i][j] == Absorb(g, cur, p, e, i, j)
    case Corner => g[i][j] == 0.5 * (g[XNeighbour(p, i)][j] + g[i][YNeighbour(p, j)])
  }

  predicate Solves(g: Grid, cur: Grid, prev: Grid, p: Params, src: real)
    requires p.Valid() && Fits(p, g) && Fits(p, cur) && Fits(p, prev)
  {
    forall i, j :: 0 <= i < p.nx && 0 <= j < p.ny ==> SolvesAt(g, cur, prev, p, src, i, j)
  }

  // ---------------------------------------------------------------------------
  // Lemmas

  /** One more edge loop after a set of finished edges is the same as
      finishing that set plus the new edge, since an edge loop reads the
      buffer only at interior nodes, which no edge loop writes. */
  lemma EdgeThenDone(g: Grid, cur: Grid, p: Params, e: Edge, done: set<Edge>)
    requires p.Valid() && Fits(p, g) && Fits(p, cur)
    ensures EdgesDone(ApplyEdge(g, cur, p, e), cur, p, done) == EdgesDone(g, cur, p, done + {e})
  {
    var a := ApplyEdge(g, cur, p, e);
    var lhs := EdgesDone(a, cur, p, done);
    var rhs := EdgesDone(g, cur, p, done + {e});
    forall i, j | 0 <= i < p.nx && 0 <= j < p.ny
      ensures lhs[i][j] == rhs[i][j]
    {
      var reg := RegionOf(p, i, j);
      if reg.Side? {
        var d := reg.edge;
        var (u, v) := Inward(p, d, i, j);
        assert a[u][v] == g[u][v];
        assert Absorb(a, cur, p, d, i, j) == Absorb(g, cur, p, d, i, j);
        assert a[i][j] == if d == e then Absorb(g, cur, p, d, i, j) else g[i][j];
      } else {
        assert lhs[i][j] == a[i][j] == g[i][j] == rhs[i][j];
      }
    }
    GridExt(lhs, rhs, p.nx, p.ny);
  }

  /** Running the edge loops in any order, even with repetitions, gives the
      grid in which exactly the edges named were extrapolated from the
      starting grid. */
  lemma {:induction false} EdgesInAnyOrder(g: Grid, cur: Grid, p: Params, es: seq<Edge>)
    requires p.Valid() && Fits(p, g) && Fits(p, cur)
    ensures ApplyEdges(g, cur, p, es) == EdgesDone(g, cur, p, set e | e in es)
    decreases |es|
  {
    if es == [] {
      assert (set e | e in es) == {};
      GridExt(EdgesDone(g, cur, p, {}), g, p.nx, p.ny);
    } else {
      var a := ApplyEdge(g, cur, p, es[0]);
      EdgesInAnyOrder(a, cur, p, es[1..]);
      EdgeThenDone(g, cur, p, es[0], set e | e in es[1..]);
      assert (set e | e in es[1..]) + {es[0]} == set e | e in es;
    }
  }

  /** Two orders of the edge loops that cover the same edges commute. */
  lemma EdgeOrderIrrelevant(g: Grid, cur: Grid, p: Params, es1: seq<Edge>, es2: seq<Edge>)
    requires p.Valid() && Fits(p, g) && Fits(p, cur)
    requires forall e :: e in es1 <==> e in es2
    ensures ApplyEdges(g, cur, p, es1) == ApplyEdges(g, cur, p, es2)
  {
    EdgesInAnyOrder(g, cur, p, es1);
    EdgesInAnyOrder(g, cur, p, es2);
    assert (set e | e in es1) == (set e | e in es2);
  }

  /** The C edge order finishes all four edges. */
  lemma EdgeOrderFinishesAll(g: Grid, cur: Grid, p: Params)
    requires p.Valid() && Fits(p, g) && Fits(p, cur)
    ensures ApplyEdges(g, cur, p, EdgeOrder) == EdgesDone(g, cur, p, AllEdges)
  {
    EdgesInAnyOrder(g, cur, p, EdgeOrder);
    assert (set e | e in EdgeOrder) == AllEdges;
  }

  /** Extrapolating the edges of `d1` and then those of `d2` is extrapolating
      the edges of both at once: an edge node reads only an interior node,
      which no edge loop writes.  wave_sim.py groups its four edge loops
      into a left/right and a top/bottom loop. */
  lemma EdgesDoneCompose(g: Grid, cur: Grid, p: Params, d1: set<Edge>, d2: set<Edge>)
    requires p.Valid() && Fits(p, g) && Fits(p, cur)
    ensures EdgesDone(EdgesDone(g, cur, p, d1), cur, p, d2) == EdgesDone(g, cur, p, d1 + d2)
  {
    var a := EdgesDone(g, cur, p, d1);
    var lhs := EdgesDone(a, cur, p, d2);
    var rhs := EdgesDone(g, cur, p, d1 + d2);
    forall i, j | 0 <= i < p.nx && 0 <= j < p.ny
      ensures lhs[i][j] == rhs[i][j]
    {
      var reg := RegionOf(p, i, j);
      if reg.Side? {
        var d := reg.edge;
        var (u, v) := Inward(p, d, i, j);
        assert a[u][v] == g[u][v];
        assert Absorb(a, cur, p, d, i, j) == Absorb(g, cur, p, d, i, j);
      } else {
        assert lhs[i][j] == a[i][j] == g[i][j] == rhs[i][j];
      }
    }
    GridExt(lhs, rhs, p.nx, p.ny);
  }

  /** The corner pass changes the corners only, each to the mean of its two
      neighbours in the grid before the pass. */
  lemma CornersCells(g: Grid, p: Params)
    requires p.Valid() && Fits(p, g)
    ensures var r := Corners(g, p);
      && (forall i, j :: InRange(p, i, j) && RegionOf(p, i, j) != Corner ==> r[i][j] == g[i][j])
      && (forall i, j :: InRange(p, i, j) && RegionOf(p, i, j) == Corner ==>
            r[i][j] == 0.5 * (g[XNeighbour(p, i)][j] + g[i][YNeighbour(p, j)]))
  {
  }

  /** After the corner pass each corner is the mean of its two neighbours
      in the resulting grid itself. */
  lemma CornersSatisfyLaw(g: Grid, p: Params)
    requires p.Valid() && Fits(p, g)
    ensures var r := Corners(g, p);
      forall i, j :: InRange(p, i, j) && RegionOf(p, i, j) == Corner ==>
        r[i][j] == 0.5 * (r[XNeighbour(p, i)][j] + r[i][YNeighbour(p, j)])
  {
    CornersCells(g, p);
    forall i, j | InRange(p, i, j) && RegionOf(p, i, j) == Corner
      ensures Corners(g, p)[i][j] == 0.5 * (Corners(g, p)[XNeighbour(p, i)][j] + Corners(g, p)[i][YNeighbour(p, j)])
    {
      CornerNeighboursAreEdges(p, i, j);
    }
  }

  /** A grid whose interior holds the interior equations, whose edges were
      extrapolated from that interior, and whose corners average its edges,
      satisfies every node equation. */
  lemma SolvesFromPasses(h: Grid, e: Grid, f: Grid, cur: Grid, prev: Grid, p: Params, src: real)
    requires p.Valid() && Fits(p, h) && Fits(p, e) && Fits(p, f) && Fits(p, cur) && Fits(p, prev)
    requires forall i, j :: InRange(p, i, j) && RegionOf(p, i, j) == Inner ==>
      h[i][j] == if i == p.xs && j == p.ys then src else Stencil(cur, prev, p, i, j)
    requires forall i, j :: InRange(p, i, j) && RegionOf(p, i, j) == Inner ==> e[i][j] == h[i][j]
    requires forall i, j :: InRange(p, i, j) && RegionOf(p, i, j).Side? ==>
      e[i][j] == Absorb(h, cur, p, RegionOf(p, i, j).edge, i, j)
    requires forall i, j :: InRange(p, i, j) && RegionOf(p, i, j) != Corner ==> f[i][j] == e[i][j]
    requires forall i, j :: InRange(p, i, j) && RegionOf(p, i, j) == Corner ==>
      f[i][j] == 0.5 * (f[XNeighbour(p, i)][j] + f[i][YNeighbour(p, j)])
    ensures Solves(f, cur, prev, p, src)
  {
    forall i, j | 0 <= i < p.nx && 0 <= j < p.ny
      ensures SolvesAt(f, cur, prev, p, src, i, j)
    {
      var reg := RegionOf(p, i, j);
      if reg.Side? {
        var (u, v) := Inward(p, reg.edge, i, j);
        assert f[u][v] == e[u][v] == h[u][v];
      }
    }
  }

  /** Finishing all four edges keeps every interior node and extrapolates
      every edge node from the interior. */
  lemma AllEdgesDone(h: Grid, cur: Grid, p: Params)
    requires p.Valid() && Fits(p, h) && Fits(p, cur)
    ensures var e := EdgesDone(h, cur, p, AllEdges);
      && (forall i, j :: InRange(p, i, j) && RegionOf(p, i, j) == Inner ==> e[i][j] == h[i][j])
      && (forall i, j :: InRange(p, i, j) && RegionOf(p, i, j).Side? ==>
            e[i][j] == Absorb(h, cur, p, RegionOf(p, i, j).edge, i, j))
  {
    var e := EdgesDone(h, cur, p, AllEdges);
    forall i, j | InRange(p, i, j) && RegionOf(p, i, j).Side?
      ensures e[i][j] == Absorb(h, cur, p, RegionOf(p, i, j).edge, i, j)
    {
      assert RegionOf(p, i, j).edge in AllEdges;
    }
  }

  /** After the interior and source passes and all four edges, the corner
      pass leaves a grid that satisfies every node equation. */
  lemma FinishedStepSolves(h: Grid, cur: Grid, prev: Grid, p: Params, src: real)
    requires p.Valid() && Fits(p, h) && Fits(p, cur) && Fits(p, prev)
    requires forall i, j :: InRange(p, i, j) && RegionOf(p, i, j) == Inner ==>
      h[i][j] == if i == p.xs && j == p.ys then src else Stencil(cur, prev, p, i, j)
    ensures Solves(Corners(EdgesDone(h, cur, p, AllEdges), p), cur, prev, p, src)
  {
    var e := EdgesDone(h, cur, p, AllEdges);
    AllEdgesDone(h, cur, p);
    CornersCells(e, p);
    CornersSatisfyLaw(e, p);
    SolvesFromPasses(h, e, Corners(e, p), cur, prev, p, src);
  }

  /** The passes produce a grid that satisfies every node equation. */
  lemma StepSolvesScheme(next: Grid, cur: Grid, prev: Grid, p: Params, src: real)
    requires p.Valid() && Fits(p, next) && Fits(p, cur) && Fits(p, prev)
    ensures Solves(StepGrid(next, cur, prev, p, src), cur, prev, p, src)
  {
    var h := Source(Interior(next, cur, prev, p), p, src);
    forall i, j | InRange(p, i, j) && RegionOf(p, i, j) == Inner
      ensures h[i][j] == if i == p.xs && j == p.ys then src else Stencil(cur, prev, p, i, j)
    {
    }
    EdgeOrderFinishesAll(h, cur, p);
    FinishedStepSolves(h, cur, prev, p, src);
  }

  /** At most one grid satisfies the node equations. */
  lemma SchemeSolutionUnique(g: Grid, h: Grid, cur: Grid, prev: Grid, p: Params, src: real)
    requires p.Valid() && Fits(p, g) && Fits(p, h) && Fits(p, cur) && Fits(p, prev)
    requires Solves(g, cur, prev, p, src) && Solves(h, cur, prev, p, src)
    ensures g == h
  {
    forall i, j | InRange(p, i, j) && RegionOf(p, i, j) == Inner
      ensures g[i][j] == h[i][j]
    {
      assert SolvesAt(g, cur, prev, p, src, i, j) && SolvesAt(h, cur, prev, p, src, i, j);
    }
    forall i, j | InRange(p, i, j) && RegionOf(p, i, j).Side?
      ensures g[i][j] == h[i][j]
    {
      assert SolvesAt(g, cur, prev, p, src, i, j) && SolvesAt(h, cur, prev, p, src, i, j);
      var (u, v) := Inward(p, RegionOf(p, i, j).edge, i, j);
      assert g[u][v] == h[u][v];
    }
    forall i, j | InRange(p, i, j) && RegionOf(p, i, j) == Corner
      ensures g[i][j] == h[i][j]
    {
      assert SolvesAt(g, cur, prev, p, src, i, j) && SolvesAt(h, cur, prev, p, src, i, j);
      CornerNeighboursAreEdges(p, i, j);
    }
    GridExt(g, h, p.nx, p.ny);
  }

  /** A grid is the result of the step exactly when it satisfies the node
      equations. */
  lemma StepCharacterized(g: Grid, next: Grid, cur: Grid, prev: Grid, p: Params, src: real)
    requires p.Valid() && Fits(p, g) && Fits(p, next) && Fits(p, cur) && Fits(p, prev)
    ensures Solves(g, cur, prev, p, src) <==> g == StepGrid(next, cur, prev, p, src)
  {
    StepSolvesScheme(next, cur, prev, p, src);
    if Solves(g, cur, prev, p, src) {
      SchemeSolutionUnique(g, StepGrid(next, cur, prev, p, src), cur, prev, p, src);
    }
  }

  /** Every node of the recycled buffer is overwritten: the step does not
      depend on what the buffer held before. */
  lemma StaleContentsIrrelevant(a: Grid, b: Grid, cur: Grid, prev: Grid, p: Params, src: real)
    requires p.Valid() && Fits(p, a) && Fits(p, b) && Fits(p, cur) && Fits(p, prev)
    ensures StepGrid(a, cur, prev, p, src) == StepGrid(b, cur, prev, p, src)
  {
    StepSolvesScheme(a, cur, prev, p, src);
    StepSolvesScheme(b, cur, prev, p, src);
    SchemeSolutionUnique(StepGrid(a, cur, prev, p, src), StepGrid(b, cur, prev, p, src), cur, prev, p, src);
  }

  /** The source value survives the edge and corner passes. */
  lemma SourceSurvives(next: Grid, cur: Grid, prev: Grid, p: Params, src: real)
    requires p.Valid() && Fits(p, next) && Fits(p, cur) && Fits(p, prev)
    ensures StepGrid(next, cur, prev, p, src)[p.xs][p.ys] == src
  {
    StepSolvesScheme(next, cur, prev, p, src);
    assert SolvesAt(StepGrid(next, cur, prev, p, src), cur, prev, p, src, p.xs, p.ys);
  }

  /** Each corner written by the corner pass is the mean of two edge nodes
      of the grid before the pass. */
  lemma CornersFromEdges(g: Grid, p: Params)
    requires p.Valid() && Fits(p, g)
    ensures var r, nx, ny := Corners(g, p), p.nx, p.ny;
      && r[0][0] == 0.5 * (g[1][0] + g[0][1])
      && r[nx - 1][0] == 0.5 * (g[nx - 2][0] + g[nx - 1][1])
      && r[nx - 1][ny - 1] == 0.5 * (g[nx - 2][ny - 1] + g[nx - 1][ny - 2])
      && r[0][ny - 1] == 0.5 * (g[0][ny - 2] + g[1][ny - 1])
  {
    CornersCells(g, p);
  }

  /** A grid that agrees with `g` off the corners and holds the four corner
      means of `g` is the corner pass of `g`. */
  lemma CornersByCells(g: Grid, h: Grid, p: Params)
    requires p.Valid() && Fits(p, g) && Fits(p, h)
    requires forall i, j | 0 <= i < p.nx && 0 <= j < p.ny && !((i == 0 || i == p.nx - 1) && (j == 0 || j == p.ny - 1))
      :: h[i][j] == g[i][j]
    requires h[0][0] == 0.5 * (g[1][0] + g[0][1])
    requires h[p.nx - 1][0] == 0.5 * (g[p.nx - 2][0] + g[p.nx - 1][1])
    requires h[p.nx - 1][p.ny - 1] == 0.5 * (g[p.nx - 2][p.ny - 1] + g[p.nx - 1][p.ny - 2])
    requires h[0][p.ny - 1] == 0.5 * (g[0][p.ny - 2] + g[1][p.ny - 1])
    ensures h == Corners(g, p)
  {
    CornersCells(g, p);
    CornersFromEdges(g, p);
    GridExt(h, Corners(g, p), p.nx, p.ny);
  }

  /** The corner law in the four forms wave_sim.c writes it, for the grid
      the corner pass leaves: each corner is the mean of its two edge
      neighbours as they stand after the pass. */
  lemma CornerLaw(g: Grid, p: Params)
    requires p.Valid() && Fits(p, g)
    ensures var r, nx, ny := Corners(g, p), p.nx, p.ny;
      && r[0][0] == 0.5 * (r[1][0] + r[0][1])
      && r[nx - 1][0] == 0.5 * (r[nx - 2][0] + r[nx - 1][1])
      && r[nx - 1][ny - 1] == 0.5 * (r[nx - 2][ny - 1] + r[nx - 1][ny - 2])
      && r[0][ny - 1] == 0.5 * (r[0][ny - 2] + r[1][ny - 1])
  {
    CornersCells(g, p);
    CornersFromEdges(g, p);
    var nx, ny := p.nx, p.ny;
    assert RegionOf(p, 1, 0) != Corner && RegionOf(p, 0, 1) != Corner;
    assert RegionOf(p, nx - 2, 0) != Corner && RegionOf(p, nx - 1, 1) != Corner;
    assert RegionOf(p, nx - 2, ny - 1) != Corner && RegionOf(p, nx - 1, ny - 2) != Corner;
    assert RegionOf(p, 0, ny - 2) != Corner && RegionOf(p, 1, ny - 1) != Corner;
  }

  /** With both earlier levels zero and a zero source value, the step yields
      the zero grid, whatever the recycled buffer held. */
  lemma ZeroStep(next: Grid, cur: Grid, prev: Grid, p: Params)
    requires p.Valid() && Fits(p, next) && Fits(p, cur) && Fits(p, prev)
    requires IsZero(cur) && IsZero(prev)
    ensures IsZero(StepGrid(next, cur, prev, p, 0.0))
  {
    forall i, j | InRange(p, i, j)
      ensures SolvesAt(cur, cur, prev, p, 0.0, i, j)
    {
      match RegionOf(p, i, j)
      case Inner =>
      case Side(e) =>
        var (u, v) := Inward(p, e, i, j);
        assert cur[u][v] == 0.0 && cur[i][j] == 0.0;
      case Corner =>
        CornerNeighboursAreEdges(p, i, j);
    }
    StepCharacterized(cur, next, cur, prev, p, 0.0);
  }

  /** From an all-zero state, after the interior and source passes only the
      source node may be nonzero, and it holds the source value. */
  lemma InjectionIsolated(next: Grid, cur: Grid, prev: Grid, p: Params, src: real)
    requires p.Valid() && Fits(p, next) && Fits(p, cur) && Fits(p, prev)
    requires IsZero(next) && IsZero(cur) && IsZero(prev)
    ensures var h := Source(Interior(next, cur, prev, p), p, src);
      forall i, j :: InRange(p, i, j) ==> h[i][j] == if i == p.xs && j == p.ys then src else 0.0
  {
    var m := Interior(next, cur, prev, p);
    forall i, j | InRange(p, i, j)
      ensures m[i][j] == 0.0
    {
      if RegionOf(p, i, j) == Inner {
        assert cur[i][j] == 0.0 && cur[i + 1][j] == 0.0 && cur[i - 1][j] == 0.0;
        assert cur[i][j + 1] == 0.0 && cur[i][j - 1] == 0.0 && prev[i][j] == 0.0;
      } else {
        assert next[i][j] == 0.0;
      }
    }
  }
}
