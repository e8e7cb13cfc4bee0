/**
 The robot's virtual map and the moves that keep it in step with the real
 maze. Both engines carry a copy of `virtualCheck`, `virtualGo` and
 `adapterGo`; the copies are identical except for how `virtualCheck` reads a
 cell, so the model writes them once, parametrised by `Rules`.
 */
module VirtualMaps {
  import opened Geometry
  import opened Oracle

  /** Cells that were never written read as blank: the source fills its array with spaces. */
  type VirtualMap = map<Pos, char>

  const EMPTY_CELL: char := ' '
  const PATH_CELL: char := '*'
  const WALL_CELL: char := '.'
  const START_MARK: char := 'R'
  const EXIT_MARK: char := 'X'
  const GATE_MARK: char := 'G'

  /** The robot starts in the middle of a 1997 by 1997 virtual map. */
  const VIRTUAL_MAP_ONE_SIDE: int := 998
  const Origin: Pos := Pos(VIRTUAL_MAP_ONE_SIDE, VIRTUAL_MAP_ONE_SIDE)

  function Cell(v: VirtualMap, p: Pos): char
  {
    if p in v then v[p] else EMPTY_CELL
  }

  /** `replaceCellAt`: one cell changes, every other cell keeps its character. */
  function Mark(v: VirtualMap, p: Pos, c: char): (r: VirtualMap)
    ensures Cell(r, p) == c
    ensures forall q :: q != p ==> Cell(r, q) == Cell(v, q)
  {
    v[p := c]
  }

  /**
   The two readings of a virtual cell. In the embedded engine of `Maze.java`
   only a path cell needs the override and anything that is not a wall or a
   path (a blank, the start mark) is open; in `Robot.java` only a blank is
   open and everything that is not a wall needs the override.
   */
  datatype Rules = MazeRules | RobotRules

  /** When `virtualCheck` lets the robot into a cell holding `c`. */
  predicate Passable(rules: Rules, c: char, isOverride: bool)
  {
    match rules
    case MazeRules => c != WALL_CELL && (isOverride || c != PATH_CELL)
    case RobotRules => c == EMPTY_CELL || (isOverride && c != WALL_CELL)
  }

  /**
   `virtualCheck`: looks at the neighbouring virtual cell without moving.
   A wall is always closed, a blank always open, and a path cell is open
   only under the override.
   */
  function VirtualCheck(rules: Rules, v: VirtualMap, p: Pos, t: Token, isOverride: bool): (r: Signal)
    ensures r != WinSignal
    ensures t.Invalid? ==> r == FalseSignal
    ensures t.Named? ==> (r == TrueSignal <==> Passable(rules, Cell(v, Neighbour(p, t.dir)), isOverride))
    ensures t.Named? && Cell(v, Neighbour(p, t.dir)) == WALL_CELL ==> r == FalseSignal
    ensures t.Named? && Cell(v, Neighbour(p, t.dir)) == EMPTY_CELL ==> r == TrueSignal
    ensures t.Named? && Cell(v, Neighbour(p, t.dir)) == PATH_CELL ==> (r == TrueSignal <==> isOverride)
    ensures rules == MazeRules && t.Named? && Cell(v, Neighbour(p, t.dir)) !in {WALL_CELL, PATH_CELL} ==> r == TrueSignal
    ensures rules == RobotRules && t.Named? && Cell(v, Neighbour(p, t.dir)) !in {WALL_CELL, EMPTY_CELL} ==>
      (r == TrueSignal <==> isOverride)
  {
    match t
    case Invalid => FalseSignal
    case Named(d) =>
      var c := Cell(v, Neighbour(p, d));
      match rules
      case MazeRules =>
        if c == WALL_CELL then FalseSignal
        else if c == PATH_CELL then (if isOverride then TrueSignal else FalseSignal)
        else TrueSignal
      case RobotRules =>
        if c == WALL_CELL then FalseSignal
        else if c == EMPTY_CELL then TrueSignal
        else if isOverride then TrueSignal
        else FalseSignal
  }

  /** Whatever a check lets through without the override it also lets through with it. */
  lemma OverrideOnlyWidens(rules: Rules, v: VirtualMap, p: Pos, t: Token)
    ensures VirtualCheck(rules, v, p, t, false) == TrueSignal ==> VirtualCheck(rules, v, p, t, true) == TrueSignal
  {
  }

  /**
   `virtualGo`: moves the virtual position one cell in the direction exactly
   when `virtualCheck` with the override says so, and otherwise leaves it.
   */
  function VirtualGo(rules: Rules, v: VirtualMap, p: Pos, t: Token): (r: (Signal, Pos))
    ensures r.0 == VirtualCheck(rules, v, p, t, true)
    ensures r.0 == TrueSignal ==> t.Named? && r.1 == Neighbour(p, t.dir)
    ensures r.0 != TrueSignal ==> r.1 == p
  {
    var res := VirtualCheck(rules, v, p, t, true);
    if res == TrueSignal then (res, Neighbour(p, t.dir)) else (res, p)
  }

  /**
   The wall-marking manoeuvre of `adapterGo` always returns: after a virtual
   step into a cell that is then marked wall, the step back in the opposite
   direction succeeds and ends where the manoeuvre started, provided the
   robot did not start on a wall mark.
   */
  lemma WallMarkReverts(rules: Rules, v: VirtualMap, p: Pos, d: Direction)
    requires Cell(v, p) != WALL_CELL
    requires VirtualGo(rules, v, p, Named(d)).0 == TrueSignal
    ensures var q := VirtualGo(rules, v, p, Named(d)).1;
      VirtualGo(rules, Mark(v, q, WALL_CELL), q, Opposite(Named(d))) == (TrueSignal, p)
  {
    var q := Neighbour(p, d);
    assert Neighbour(q, Inverse(d)) == p;
    assert p != q;
  }

  /** `after` differs from `before` at most at `p`, and there only by a wall or path mark. */
  ghost predicate MarksOnly(before: VirtualMap, after: VirtualMap, p: Pos)
  {
    && (forall x :: x != p ==> Cell(after, x) == Cell(before, x))
    && (Cell(after, p) == WALL_CELL || Cell(after, p) == PATH_CELL || Cell(after, p) == Cell(before, p))
  }

  /** The state `adapterGo` works on: the virtual map and position, and the real maze. */
  datatype Agent = Agent(vmap: VirtualMap, vpos: Pos, maze: Maze)

  /**
   `adapterGo`: asks the real maze to move, then mirrors the answer in the
   virtual map. A refusal marks the target cell as wall by stepping there
   virtually and straight back; any other answer moves the virtual position
   and marks the new cell as path. The maze's answer is passed on.
   */
  function AdapterGo(rules: Rules, a: Agent, d: Direction): (r: (Signal, Agent))
    requires Valid(a.maze)
    ensures (r.0, r.1.maze) == Go(a.maze, Named(d))
    ensures r.0 == FalseSignal ==>
      Cell(r.1.vmap, Neighbour(a.vpos, d)) == WALL_CELL && MarksOnly(a.vmap, r.1.vmap, Neighbour(a.vpos, d))
    ensures r.0 == FalseSignal && Cell(a.vmap, a.vpos) != WALL_CELL ==> r.1.vpos == a.vpos
    ensures r.0 != FalseSignal ==>
      Cell(r.1.vmap, r.1.vpos) == PATH_CELL && MarksOnly(a.vmap, r.1.vmap, r.1.vpos)
    ensures r.0 != FalseSignal ==>
      (r.1.vpos == Neighbour(a.vpos, d) <==> Cell(a.vmap, Neighbour(a.vpos, d)) != WALL_CELL)
  {
    var (res, m) := Go(a.maze, Named(d));
    if res == FalseSignal then
      var (virtualResult, p) := VirtualGo(rules, a.vmap, a.vpos, Named(d));
      if virtualResult == TrueSignal then
        var v := Mark(a.vmap, p, WALL_CELL);
        var (_, back) := VirtualGo(rules, v, p, Opposite(Named(d)));
        (res, Agent(v, back, m))
      else
        (res, Agent(a.vmap, p, m))
    else
      var (_, p) := VirtualGo(rules, a.vmap, a.vpos, Named(d));
      (res, Agent(Mark(a.vmap, p, PATH_CELL), p, m))
  }

  /**
   One attempt of the search in direction `d`: check the virtual map without
   the override and contact the real maze only if it does not already rule
   the move out. The maze's step counter therefore grows exactly when the
   target cell is not known to be closed.
   */
  function Try(rules: Rules, a: Agent, d: Direction): (r: (Signal, Agent))
    requires Valid(a.maze)
    ensures r.1.maze.grid == a.maze.grid
    ensures r.1.maze.steps == a.maze.steps + (if Passable(rules, Cell(a.vmap, Neighbour(a.vpos, d)), false) then 1 else 0)
    ensures !Passable(rules, Cell(a.vmap, Neighbour(a.vpos, d)), false) ==> r == (FalseSignal, a)
    ensures Passable(rules, Cell(a.vmap, Neighbour(a.vpos, d)), false) ==> r == AdapterGo(rules, a, d)
  {
    var check := VirtualCheck(rules, a.vmap, a.vpos, Named(d), false);
    if check == TrueSignal then AdapterGo(rules, a, d) else (check, a)
  }
}
