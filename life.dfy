/** Conway's B3/S23 rule as the three Game of Life sources write it: a live cell
    holds 16, a dead one 0, and the rule reads the sum of the eight neighbour
    values, so a sum of 32 or 48 means two or three live neighbours. */
module Life {
  import opened Images

  const Alive := 16
  const Dead := 0

  /** Next value of a cell from its own value and its eight-neighbour sum. */
  function NextState(centre: int, sum: int): (r: int)
    ensures r == Alive || r == Dead
  {
    if centre == Alive then
      (if sum == 32 || sum == 48 then Alive else Dead)
    else
      (if sum == 48 then Alive else Dead)
  }

  /** Sum of the eight neighbours of (x, y), out-of-range reads clamped to the edge. */
  function NeighbourSum(p: Plane, w: nat, h: nat, x: int, y: int): int
    requires WfPlane(p, w, h) && w > 0 && h > 0
  {
    BorderAt(p, w, h, x - 1, y - 1) + BorderAt(p, w, h, x, y - 1) + BorderAt(p, w, h, x + 1, y - 1) +
    BorderAt(p, w, h, x - 1, y)                                   + BorderAt(p, w, h, x + 1, y) +
    BorderAt(p, w, h, x - 1, y + 1) + BorderAt(p, w, h, x, y + 1) + BorderAt(p, w, h, x + 1, y + 1)
  }

  /** Next value of cell (x, y): the centre value is read from plane `c`, the
      neighbour sum from plane `n`. The sources read both from the same plane,
      except `GameOfLifeSourcev1`, which sums over plane 0. */
  function StepCell(c: Plane, n: Plane, w: nat, h: nat, x: nat, y: nat): int
    requires WfPlane(c, w, h) && WfPlane(n, w, h) && x < w && y < h
  {
    NextState(c[y][x], NeighbourSum(n, w, h, x, y))
  }

  function StepRow(c: Plane, n: Plane, w: nat, h: nat, y: nat): (r: seq<int>)
    requires WfPlane(c, w, h) && WfPlane(n, w, h) && y < h
    ensures |r| == w
  {
    seq(w, x requires 0 <= x < w => StepCell(c, n, w, h, x, y))
  }

  /** Next values of a plane, centres from `c` and neighbour sums from `n`. */
  function StepPlaneFrom(c: Plane, n: Plane, w: nat, h: nat): (q: Plane)
    requires WfPlane(c, w, h) && WfPlane(n, w, h)
    ensures WfPlane(q, w, h)
  {
    seq(h, y requires 0 <= y < h => StepRow(c, n, w, h, y))
  }

  /** One generation of one plane: every cell from its own value and the clamped
      neighbour sum in the same plane. */
  function StepPlane(p: Plane, w: nat, h: nat): (q: Plane)
    requires WfPlane(p, w, h)
    ensures WfPlane(q, w, h)
  {
    StepPlaneFrom(p, p, w, h)
  }

  /** The cell rule in one cell of `StepPlaneFrom(c, n)`. */
  lemma StepPlaneFromAt(c: Plane, n: Plane, w: nat, h: nat, x: nat, y: nat)
    requires WfPlane(c, w, h) && WfPlane(n, w, h) && x < w && y < h
    ensures StepPlaneFrom(c, n, w, h)[y][x] == NextState(c[y][x], NeighbourSum(n, w, h, x, y))
  {
    assert StepPlaneFrom(c, n, w, h)[y] == StepRow(c, n, w, h, y);
  }

  /** The cell rule in one cell of `StepPlane(p)`. */
  lemma StepPlaneAt(p: Plane, w: nat, h: nat, x: nat, y: nat)
    requires WfPlane(p, w, h) && x < w && y < h
    ensures StepPlane(p, w, h)[y][x] == NextState(p[y][x], NeighbourSum(p, w, h, x, y))
  {
    StepPlaneFromAt(p, p, w, h, x, y);
  }

  /** Every cell of the plane is dead or alive. */
  ghost predicate LiveOrDead(p: Plane, w: nat, h: nat)
    requires WfPlane(p, w, h)
  {
    forall y, x :: 0 <= y < h && 0 <= x < w ==> p[y][x] == Dead || p[y][x] == Alive
  }

  /** Whatever the input values, every cell of the next generation is 0 or 16. */
  lemma StepPlaneFromLiveOrDead(c: Plane, n: Plane, w: nat, h: nat)
    requires WfPlane(c, w, h) && WfPlane(n, w, h)
    ensures LiveOrDead(StepPlaneFrom(c, n, w, h), w, h)
  {
    forall y, x | 0 <= y < h && 0 <= x < w
      ensures StepPlaneFrom(c, n, w, h)[y][x] == Dead || StepPlaneFrom(c, n, w, h)[y][x] == Alive
    {
      StepPlaneFromAt(c, n, w, h, x, y);
    }
  }

  function Live(v: int): nat { if v == Alive then 1 else 0 }

  /** Number of live cells among the eight clamped neighbours of (x, y). */
  function LiveNeighbours(p: Plane, w: nat, h: nat, x: int, y: int): nat
    requires WfPlane(p, w, h) && w > 0 && h > 0
  {
    Live(BorderAt(p, w, h, x - 1, y - 1)) + Live(BorderAt(p, w, h, x, y - 1)) + Live(BorderAt(p, w, h, x + 1, y - 1)) +
    Live(BorderAt(p, w, h, x - 1, y))                                         + Live(BorderAt(p, w, h, x + 1, y)) +
    Live(BorderAt(p, w, h, x - 1, y + 1)) + Live(BorderAt(p, w, h, x, y + 1)) + Live(BorderAt(p, w, h, x + 1, y + 1))
  }

  /** Reference definition of B3/S23 for one cell: born with exactly three live
      neighbours, survives with two or three, dead otherwise. */
  function ConwayCell(p: Plane, w: nat, h: nat, x: nat, y: nat): int
    requires WfPlane(p, w, h) && x < w && y < h
  {
    var n := LiveNeighbours(p, w, h, x, y);
    if (p[y][x] == Alive && (n == 2 || n == 3)) || (p[y][x] != Alive && n == 3) then Alive else Dead
  }

  /** Reference definition of one B3/S23 generation of a plane. */
  function Conway(p: Plane, w: nat, h: nat): Plane
    requires WfPlane(p, w, h)
  {
    seq(h, y requires 0 <= y < h => seq(w, x requires 0 <= x < w => ConwayCell(p, w, h, x, y)))
  }

  /** A dead-or-live value is 16 times its live indicator. */
  lemma CellIsSixteenTimesLive(p: Plane, w: nat, h: nat, x: int, y: int)
    requires WfPlane(p, w, h) && w > 0 && h > 0 && LiveOrDead(p, w, h)
    ensures BorderAt(p, w, h, x, y) == 16 * Live(BorderAt(p, w, h, x, y))
  {
    var cy, cx := Clamp(y, h), Clamp(x, w);
    assert p[cy][cx] == Dead || p[cy][cx] == Alive;
  }

  /** On a plane of dead and live cells the neighbour sum is 16 times the live count. */
  lemma SumIsSixteenTimesLive(p: Plane, w: nat, h: nat, x: int, y: int)
    requires WfPlane(p, w, h) && w > 0 && h > 0 && LiveOrDead(p, w, h)
    ensures NeighbourSum(p, w, h, x, y) == 16 * LiveNeighbours(p, w, h, x, y)
  {
    CellIsSixteenTimesLive(p, w, h, x - 1, y - 1);
    CellIsSixteenTimesLive(p, w, h, x, y - 1);
    CellIsSixteenTimesLive(p, w, h, x + 1, y - 1);
    CellIsSixteenTimesLive(p, w, h, x - 1, y);
    CellIsSixteenTimesLive(p, w, h, x + 1, y);
    CellIsSixteenTimesLive(p, w, h, x - 1, y + 1);
    CellIsSixteenTimesLive(p, w, h, x, y + 1);
    CellIsSixteenTimesLive(p, w, h, x + 1, y + 1);
  }

  /** The sum rule gives Conway's verdict on one cell once every cell is 0 or 16. */
  lemma NextStateIsConway(p: Plane, w: nat, h: nat, x: nat, y: nat)
    requires WfPlane(p, w, h) && x < w && y < h && LiveOrDead(p, w, h)
    ensures NextState(p[y][x], NeighbourSum(p, w, h, x, y)) == ConwayCell(p, w, h, x, y)
  {
    SumIsSixteenTimesLive(p, w, h, x, y);
  }

  /** The sources' sum rule is Conway's rule once every cell is 0 or 16. */
  lemma StepPlaneIsConway(p: Plane, w: nat, h: nat)
    requires WfPlane(p, w, h) && LiveOrDead(p, w, h)
    ensures StepPlane(p, w, h) == Conway(p, w, h)
  {
    var q, c := StepPlane(p, w, h), Conway(p, w, h);
    forall y | 0 <= y < h ensures q[y] == c[y] {
      forall x | 0 <= x < w ensures q[y][x] == c[y][x] {
        NextStateIsConway(p, w, h, x, y);
      }
    }
  }
}
