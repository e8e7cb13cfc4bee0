/**
 The ground-truth maze (class `Maze`): a character grid, the real robot
 position and the number of moves requested so far. Loading the grid from a
 file is not part of this model; the grid is a parameter.
 */
module Oracle {
  import opened Geometry

  /** The answers `"true"`, `"false"` and `"win"` of the move protocol. */
  datatype Signal = TrueSignal | FalseSignal | WinSignal

  const WALL: char := '.'
  const EXIT: char := 'X'

  datatype Maze = Maze(grid: seq<string>, robot: Pos, steps: nat)

  predicate InGrid(grid: seq<string>, p: Pos)
  {
    0 <= p.row < |grid| && 0 <= p.col < |grid[p.row]|
  }

  function At(grid: seq<string>, p: Pos): char
    requires InGrid(grid, p)
  {
    grid[p.row][p.col]
  }

  /**
   All rows as wide as the first, and every border cell a wall or the exit.
   An exit in the outer wall is reached without standing on it: `go`
   answers `"win"` and leaves the robot where it is.
   */
  predicate WalledIn(grid: seq<string>)
  {
    && |grid| > 0
    && (forall r :: 0 <= r < |grid| ==> |grid[r]| == |grid[0]|)
    && (forall r, c :: 0 <= r < |grid| && 0 <= c < |grid[r]| && OnBorder(grid, r, c) ==> grid[r][c] == WALL || grid[r][c] == EXIT)
  }

  predicate OnBorder(grid: seq<string>, r: int, c: int)
    requires 0 <= r < |grid|
  {
    r == 0 || r == |grid| - 1 || c == 0 || c == |grid[r]| - 1
  }

  /** `p` lies in the grid and off its border rows and columns. */
  predicate Interior(grid: seq<string>, p: Pos)
  {
    0 < p.row < |grid| - 1 && 0 < p.col < |grid[p.row]| - 1
  }

  /**
   What `go` needs in order not to index outside the grid (it never checks):
   a walled-in grid with the robot strictly inside the border.
   */
  predicate Valid(m: Maze)
  {
    WalledIn(m.grid) && InGrid(m.grid, m.robot) && Interior(m.grid, m.robot)
  }

  /** In a walled-in grid every cell that is neither a wall nor the exit is off the border. */
  lemma OpenIsInterior(grid: seq<string>, p: Pos)
    requires WalledIn(grid) && InGrid(grid, p)
    ensures At(grid, p) != WALL && At(grid, p) != EXIT ==> Interior(grid, p)
  {
    if At(grid, p) != WALL && At(grid, p) != EXIT {
      assert !OnBorder(grid, p.row, p.col);
    }
  }

  /** A robot strictly inside a walled-in grid has all four neighbours inside the grid. */
  lemma NeighbourInGrid(grid: seq<string>, p: Pos, d: Direction)
    requires WalledIn(grid) && Interior(grid, p)
    ensures InGrid(grid, Neighbour(p, d))
  {
    assert |grid[p.row]| == |grid[0]|;
  }

  /**
   `Maze.go`: every call is counted; a non-direction or a wall answers
   `"false"`, the exit answers `"win"`, and both leave the robot where it
   is; any other cell answers `"true"` and the robot moves onto it. The grid
   is never written.
   */
  function Go(m: Maze, t: Token): (r: (Signal, Maze))
    requires Valid(m)
    ensures r.1.grid == m.grid && r.1.steps == m.steps + 1
    ensures Valid(r.1)
    ensures t.Invalid? ==> r.0 == FalseSignal && r.1.robot == m.robot
    ensures t.Named? ==>
      && InGrid(m.grid, Neighbour(m.robot, t.dir))
      && (r.0 == WinSignal <==> At(m.grid, Neighbour(m.robot, t.dir)) == EXIT)
      && (r.0 == FalseSignal <==> At(m.grid, Neighbour(m.robot, t.dir)) == WALL)
      && (r.0 == TrueSignal ==> r.1.robot == Neighbour(m.robot, t.dir))
      && (r.0 != TrueSignal ==> r.1.robot == m.robot)
  {
    match t
    case Invalid => (FalseSignal, m.(steps := m.steps + 1))
    case Named(d) =>
      var next := Neighbour(m.robot, d);
      NeighbourInGrid(m.grid, m.robot, d);
      if At(m.grid, next) == EXIT then
        (WinSignal, m.(steps := m.steps + 1))
      else if At(m.grid, next) == WALL then
        (FalseSignal, m.(steps := m.steps + 1))
      else
        OpenIsInterior(m.grid, next);
        (TrueSignal, m.(robot := next, steps := m.steps + 1))
  }
}
