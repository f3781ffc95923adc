/**
 * The cave floor of `generateFloorCA` in scoundrel-3d.js: a square grid of
 * cells from -Bounds to Bounds on both axes, seeded at random, forced alive
 * near rooms and corridors, then smoothed by three cellular-automaton steps in
 * which cells near a room stay alive. The grids are `array2<bool>` indexed
 * by `x + b`, `z + b`; `Cells` views one as a value for the specification.
 */
module Cave {
  import opened Dungeon

  const Bounds: int := 12
  const Steps: nat := 3

  type Grid = seq<seq<bool>>

  /** A value grid of side `2b + 1`. */
  predicate Square(g: Grid, b: int)
  {
    b >= 0 && |g| == 2 * b + 1 && forall i | 0 <= i < |g| :: |g[i]| == 2 * b + 1
  }

  function Cells(a: array2<bool>): (g: Grid)
    reads a
    ensures |g| == a.Length0 && forall i | 0 <= i < |g| :: |g[i]| == a.Length1
  {
    seq(a.Length0, i requires 0 <= i < a.Length0 reads a =>
      seq(a.Length1, j requires 0 <= j < a.Length1 reads a => a[i, j]))
  }

  /** Cell (x, z) is inside the grid and alive; cells outside count as dead. */
  predicate Live(g: Grid, b: int, x: int, z: int)
    requires Square(g, b)
  {
    -b <= x <= b && -b <= z <= b && g[x + b][z + b]
  }

  /** Live cells (x + i, z + j) for j in -1 .. jEnd - 1, the centre excluded. */
  function RowCount(g: Grid, b: int, x: int, z: int, i: int, jEnd: int): (n: nat)
    requires Square(g, b) && -1 <= jEnd <= 2
    ensures n <= jEnd + 1
    ensures i == 0 && jEnd >= 1 ==> n <= jEnd
    decreases jEnd + 1
  {
    if jEnd == -1 then 0
    else
      var j := jEnd - 1;
      RowCount(g, b, x, z, i, j) + (if (i == 0 && j == 0) || !Live(g, b, x + i, z + j) then 0 else 1)
  }

  /** Live neighbours of (x, z) in the rows x - 1 .. x + iEnd - 1. */
  function RowsCount(g: Grid, b: int, x: int, z: int, iEnd: int): (n: nat)
    requires Square(g, b) && -1 <= iEnd <= 2
    ensures n <= 3 * (iEnd + 1) - (if iEnd >= 1 then 1 else 0)
    decreases iEnd + 1
  {
    if iEnd == -1 then 0
    else RowsCount(g, b, x, z, iEnd - 1) + RowCount(g, b, x, z, iEnd - 1, 2)
  }

  /** `countNeighbors`: the live cells among the eight around (x, z), out-of-grid cells ignored. */
  function Neighbours(g: Grid, b: int, x: int, z: int): (n: nat)
    requires Square(g, b)
    ensures n <= 8
  {
    RowsCount(g, b, x, z, 2)
  }

  /** On an all-live grid, an inner cell has 8 live neighbours and a corner cell 3. */
  lemma NeighboursOnFullGrid(g: Grid, b: int, x: int, z: int)
    requires Square(g, b) && forall i, j | 0 <= i < |g| && 0 <= j < |g[i]| :: g[i][j]
    ensures -b < x < b && -b < z < b ==> Neighbours(g, b, x, z) == 8
    ensures x == -b && z == -b && b > 0 ==> Neighbours(g, b, x, z) == 3
  {
  }

  /** Room `r` covers (x, z) or borders it by one cell; waypoints have no size and cover nothing. */
  predicate Near(r: Room, x: int, z: int)
  {
    && !r.isWaypoint
    && 2 * r.gx - r.w - 2 <= 2 * x <= 2 * r.gx + r.w + 2
    && 2 * r.gy - r.h - 2 <= 2 * z <= 2 * r.gy + r.h + 2
  }

  /** `game.rooms.some(...)`: the cell is protected by some room. */
  predicate NearRoom(rooms: seq<Room>, x: int, z: int)
  {
    exists i | 0 <= i < |rooms| :: Near(rooms[i], x, z)
  }

  /** The next state of one cell. */
  function Rule(alive: bool, n: nat, protectedCell: bool): bool
  {
    if protectedCell then true
    else if alive then n >= 3
    else n > 4
  }

  /** One step of the automaton on a value grid. */
  function StepGrid(g: Grid, b: int, rooms: seq<Room>): (h: Grid)
    requires Square(g, b)
    ensures Square(h, b)
  {
    seq(2 * b + 1, i requires 0 <= i < 2 * b + 1 =>
      seq(2 * b + 1, j requires 0 <= j < 2 * b + 1 =>
        NextCell(g, b, rooms, i - b, j - b)))
  }

  /** Cell (x, z) after one step: the rule applied to its state, its live neighbours and its protection. */
  function NextCell(g: Grid, b: int, rooms: seq<Room>, x: int, z: int): bool
    requires Square(g, b) && -b <= x <= b && -b <= z <= b
  {
    Rule(g[x + b][z + b], Neighbours(g, b, x, z), NearRoom(rooms, x, z))
  }

  /** Cell (x, z) after one step. */
  lemma StepGridAt(g: Grid, b: int, rooms: seq<Room>, x: int, z: int)
    requires Square(g, b) && -b <= x <= b && -b <= z <= b
    ensures StepGrid(g, b, rooms)[x + b][z + b] == NextCell(g, b, rooms, x, z)
  {
  }

  /** The seeded grid: alive by the seed, or near a room or a corridor. */
  function Initial(b: int, rooms: seq<Room>, seed: (int, int) -> bool, nearCorridor: (int, int) -> bool): (g: Grid)
    requires b >= 0
    ensures Square(g, b)
  {
    seq(2 * b + 1, i =>
      seq(2 * b + 1, j =>
        seed(i - b, j - b) || NearRoom(rooms, i - b, j - b) || nearCorridor(i - b, j - b)))
  }

  /** `k` steps of the automaton. */
  function Iterate(g: Grid, b: int, rooms: seq<Room>, k: nat): (h: Grid)
    requires Square(g, b)
    ensures Square(h, b)
  {
    if k == 0 then g else StepGrid(Iterate(g, b, rooms, k - 1), b, rooms)
  }

  /** What one step does to a cell no room protects, and that a protected cell is alive. */
  lemma StepRules(g: Grid, b: int, rooms: seq<Room>, x: int, z: int)
    requires Square(g, b) && -b <= x <= b && -b <= z <= b
    ensures var next := StepGrid(g, b, rooms)[x + b][z + b];
            var n := Neighbours(g, b, x, z);
      && (NearRoom(rooms, x, z) ==> next)
      && (!NearRoom(rooms, x, z) && Live(g, b, x, z) ==> (next <==> n >= 3))
      && (!NearRoom(rooms, x, z) && !Live(g, b, x, z) ==> (next <==> n > 4))
  {
    StepGridAt(g, b, rooms, x, z);
  }

  /** Cells near a room are alive in the seeded grid and after every step. */
  lemma {:induction false} RoomsStayOpen(b: int, rooms: seq<Room>, seed: (int, int) -> bool,
                                         nearCorridor: (int, int) -> bool, k: nat, x: int, z: int)
    requires 0 <= b && -b <= x <= b && -b <= z <= b && NearRoom(rooms, x, z)
    ensures Iterate(Initial(b, rooms, seed, nearCorridor), b, rooms, k)[x + b][z + b]
  {
    if k > 0 {
      StepRules(Iterate(Initial(b, rooms, seed, nearCorridor), b, rooms, k - 1), b, rooms, x, z);
    }
  }

  /** `countNeighbors(grid, x, z, b)`. */
  method CountNeighbors(grid: array2<bool>, x: int, z: int, b: int) returns (count: nat)
    requires b >= 0 && grid.Length0 == 2 * b + 1 && grid.Length1 == 2 * b + 1
    ensures Square(Cells(grid), b) && count == Neighbours(Cells(grid), b, x, z)
  {
    ghost var g := Cells(grid);
    count := 0;
    var i := -1;
    while i <= 1
      invariant -1 <= i <= 2
      invariant count == RowsCount(g, b, x, z, i)
    {
      var j := -1;
      while j <= 1
        invariant -1 <= j <= 2
        invariant count == RowsCount(g, b, x, z, i) + RowCount(g, b, x, z, i, j)
      {
        var nx, nz := x + i, z + j;
        if !(i == 0 && j == 0) && !(nx < -b || nx > b || nz < -b || nz > b) {
          assert grid[nx + b, nz + b] == g[nx + b][nz + b];
          if grid[nx + b, nz + b] {
            count := count + 1;
          }
        }
        j := j + 1;
      }
      i := i + 1;
    }
  }

  /**
   * One pass of the `for (let step ...)` loop: `nextGrid` starts as a copy of
   * the grid and every cell is rewritten from the neighbour counts of the old one.
   */
  method CaStep(grid: array2<bool>, b: int, rooms: seq<Room>) returns (next: array2<bool>)
    requires b >= 0 && grid.Length0 == 2 * b + 1 && grid.Length1 == 2 * b + 1
    ensures fresh(next) && next.Length0 == 2 * b + 1 && next.Length1 == 2 * b + 1
    ensures Square(Cells(grid), b) && Cells(next) == StepGrid(Cells(grid), b, rooms)
  {
    ghost var g := Cells(grid);
    next := new bool[2 * b + 1, 2 * b + 1]((i, j) reads grid => if 0 <= i < 2 * b + 1 && 0 <= j < 2 * b + 1 then grid[i, j] else false);
    ghost var h := StepGrid(g, b, rooms);
    var x := -b;
    while x <= b
      invariant -b <= x <= b + 1
      invariant forall i, j | 0 <= i < x + b && 0 <= j < 2 * b + 1 :: next[i, j] == h[i][j]
      invariant forall i, j | x + b <= i < 2 * b + 1 && 0 <= j < 2 * b + 1 :: next[i, j] == g[i][j]
    {
      StepRow(next, grid, g, h, b, rooms, x + b);
      x := x + 1;
    }
    assert Cells(next) == h by {
      forall i | 0 <= i < 2 * b + 1 ensures Cells(next)[i] == h[i] {
      }
    }
  }

  /** The inner `for (let z ...)` loop: row x of `next` gets its new states, the other rows stay. */
  method StepRow(next: array2<bool>, grid: array2<bool>, ghost g: Grid, ghost h: Grid, b: int, rooms: seq<Room>, row: int)
    requires next != grid && Square(g, b) && g == Cells(grid) && h == StepGrid(g, b, rooms)
    requires next.Length0 == 2 * b + 1 && next.Length1 == 2 * b + 1 && 0 <= row < 2 * b + 1
    requires forall j | 0 <= j < 2 * b + 1 :: next[row, j] == g[row][j]
    modifies next
    ensures forall j | 0 <= j < 2 * b + 1 :: next[row, j] == h[row][j]
    ensures forall i, j | 0 <= i < 2 * b + 1 && i != row && 0 <= j < 2 * b + 1 :: next[i, j] == old(next[i, j])
  {
    var x := row - b;
    var z := -b;
    while z <= b
      invariant -b <= z <= b + 1
      invariant forall j | 0 <= j < z + b :: next[row, j] == h[row][j]
      invariant forall j | z + b <= j < 2 * b + 1 :: next[row, j] == g[row][j]
      invariant forall i, j | 0 <= i < 2 * b + 1 && i != row && 0 <= j < 2 * b + 1 :: next[i, j] == old(next[i, j])
    {
      var n := CountNeighbors(grid, x, z, b);
      SetCell(next, grid, g, h, b, rooms, x, z, n);
      z := z + 1;
    }
  }

  /** The body of the inner loop: cell (x, z) of `next` gets its new state, nothing else changes. */
  method SetCell(next: array2<bool>, grid: array2<bool>, ghost g: Grid, ghost h: Grid, b: int, rooms: seq<Room>,
                 x: int, z: int, n: nat)
    requires next != grid && Square(g, b) && g == Cells(grid) && h == StepGrid(g, b, rooms)
    requires next.Length0 == 2 * b + 1 && next.Length1 == 2 * b + 1
    requires -b <= x <= b && -b <= z <= b && n == Neighbours(g, b, x, z)
    requires next[x + b, z + b] == g[x + b][z + b]
    modifies next
    ensures next[x + b, z + b] == h[x + b][z + b]
    ensures forall i, j | 0 <= i < 2 * b + 1 && 0 <= j < 2 * b + 1 && (i, j) != (x + b, z + b) :: next[i, j] == old(next[i, j])
  {
    StepGridAt(g, b, rooms, x, z);
    assert grid[x + b, z + b] == g[x + b][z + b];
    if grid[x + b, z + b] {
      if n < 3 {
        next[x + b, z + b] := false;
      } else {
        next[x + b, z + b] := true;
      }
    } else {
      if n > 4 {
        next[x + b, z + b] := true;
      }
    }
    if NearRoom(rooms, x, z) {
      next[x + b, z + b] := true;
    }
  }

  /** The seeding loops of `generateFloorCA`, with the random draw and the corridor test as oracles. */
  method Seed(b: int, rooms: seq<Room>, seed: (int, int) -> bool, nearCorridor: (int, int) -> bool)
    returns (grid: array2<bool>)
    requires b >= 0
    ensures fresh(grid) && grid.Length0 == 2 * b + 1 && grid.Length1 == 2 * b + 1
    ensures Cells(grid) == Initial(b, rooms, seed, nearCorridor)
  {
    grid := new bool[2 * b + 1, 2 * b + 1];
    ghost var h := Initial(b, rooms, seed, nearCorridor);
    var x := -b;
    while x <= b
      invariant -b <= x <= b + 1
      invariant forall i, j | 0 <= i < x + b && 0 <= j < 2 * b + 1 :: grid[i, j] == h[i][j]
    {
      var row := x + b;
      var z := -b;
      while z <= b
        invariant -b <= z <= b + 1
        invariant forall i, j | 0 <= i < row && 0 <= j < 2 * b + 1 :: grid[i, j] == h[i][j]
        invariant forall j | 0 <= j < z + b :: grid[row, j] == h[row][j]
      {
        var alive := seed(x, z);
        if NearRoom(rooms, x, z) || nearCorridor(x, z) {
          alive := true;
        }
        grid[x + b, z + b] := alive;
        z := z + 1;
      }
      x := x + 1;
    }
    assert Cells(grid) == h by {
      forall i | 0 <= i < 2 * b + 1 ensures Cells(grid)[i] == h[i] {
      }
    }
  }

  /**
   * The grid part of `generateFloorCA`: seed, then three steps. Every cell
   * near a room ends alive.
   */
  method GenerateFloorCa(rooms: seq<Room>, seed: (int, int) -> bool, nearCorridor: (int, int) -> bool)
    returns (grid: array2<bool>)
    ensures grid.Length0 == 2 * Bounds + 1 && grid.Length1 == 2 * Bounds + 1
    ensures Cells(grid) == Iterate(Initial(Bounds, rooms, seed, nearCorridor), Bounds, rooms, Steps)
    ensures forall x, z | -Bounds <= x <= Bounds && -Bounds <= z <= Bounds && NearRoom(rooms, x, z) ::
      grid[x + Bounds, z + Bounds]
  {
    ghost var g0 := Initial(Bounds, rooms, seed, nearCorridor);
    grid := Seed(Bounds, rooms, seed, nearCorridor);
    var step := 0;
    while step < Steps
      invariant step <= Steps
      invariant grid.Length0 == 2 * Bounds + 1 && grid.Length1 == 2 * Bounds + 1
      invariant Cells(grid) == Iterate(g0, Bounds, rooms, step)
    {
      grid := CaStep(grid, Bounds, rooms);
      step := step + 1;
    }
    forall x, z | -Bounds <= x <= Bounds && -Bounds <= z <= Bounds && NearRoom(rooms, x, z)
      ensures grid[x + Bounds, z + Bounds]
    {
      RoomsStayOpen(Bounds, rooms, seed, nearCorridor, Steps, x, z);
      assert Cells(grid)[x + Bounds][z + Bounds] == grid[x + Bounds, z + Bounds];
    }
  }
}
