/**
 What it means for the virtual map to be a faithful record of the real maze,
 and why `adapterGo` keeps it so. Virtual coordinates and real coordinates
 differ by a fixed vector `off`: the virtual cell `p` stands for the real
 cell `Shift(p, off)`.
 */
module Tracking {
  import opened Geometry
  import opened Oracle
  import opened VirtualMaps

  /** Marks left where the robot has stood: the path mark, and the start mark of `Maze.java`. */
  predicate Visited(c: char)
  {
    c == PATH_CELL || c == START_MARK
  }

  /** A wall mark stands for a real wall; a visited mark for a real open cell that is not the exit. */
  predicate Consistent(mark: char, truth: char)
  {
    || (mark == WALL_CELL && truth == WALL)
    || (Visited(mark) && truth != WALL && truth != EXIT)
  }

  /** Every written virtual cell lies inside the real grid and agrees with it. */
  ghost predicate Agrees(v: VirtualMap, grid: seq<string>, off: Pos)
  {
    forall p :: Cell(v, p) != EMPTY_CELL ==> InGrid(grid, Shift(p, off)) && Consistent(Cell(v, p), At(grid, Shift(p, off)))
  }

  /**
   The virtual robot and the real robot stand on corresponding cells, the
   map agrees with the grid, and the virtual robot stands on a visited cell.
   */
  ghost predicate Synced(a: Agent, off: Pos)
  {
    && Valid(a.maze)
    && a.maze.robot == Shift(a.vpos, off)
    && Agrees(a.vmap, a.maze.grid, off)
    && Visited(Cell(a.vmap, a.vpos))
  }

  ghost predicate KeepsVisited(v: VirtualMap, v': VirtualMap)
  {
    forall q :: Visited(Cell(v, q)) ==> Visited(Cell(v', q))
  }

  lemma KeepsVisitedTrans(v1: VirtualMap, v2: VirtualMap, v3: VirtualMap)
    requires KeepsVisited(v1, v2) && KeepsVisited(v2, v3)
    ensures KeepsVisited(v1, v3)
  {
  }

  /** The vector from virtual to real coordinates when the real robot starts at `start`. */
  function Offset(start: Pos): (off: Pos)
    ensures Shift(Origin, off) == start
  {
    Pos(start.row - Origin.row, start.col - Origin.col)
  }

  /** The virtual cell standing for the real cell `q`. */
  function Unshift(q: Pos, off: Pos): (p: Pos)
    ensures Shift(p, off) == q
  {
    Pos(q.row - off.row, q.col - off.col)
  }

  /** The cells of the real grid. */
  ghost function Cells(grid: seq<string>): set<Pos>
  {
    set r, c | 0 <= r < |grid| && 0 <= c < |grid[r]| :: Pos(r, c)
  }

  lemma CellsMember(grid: seq<string>, q: Pos)
    ensures q in Cells(grid) <==> InGrid(grid, q)
  {
    if InGrid(grid, q) {
      assert Pos(q.row, q.col) == q;
    }
  }

  /**
   The real grid cells whose virtual cell a check without the override would
   still let the robot into. The grid is finite, so this set is too.
   */
  ghost function Unknown(rules: Rules, v: VirtualMap, grid: seq<string>, off: Pos): set<Pos>
  {
    set q | q in Cells(grid) && Passable(rules, Cell(v, Unshift(q, off)), false)
  }

  lemma UnknownMember(rules: Rules, v: VirtualMap, grid: seq<string>, off: Pos, p: Pos)
    ensures Shift(p, off) in Unknown(rules, v, grid, off) <==> InGrid(grid, Shift(p, off)) && Passable(rules, Cell(v, p), false)
  {
    var q := Shift(p, off);
    assert Unshift(q, off) == p;
    CellsMember(grid, q);
  }

  /** Writing a wall or path mark never makes a cell unknown again. */
  lemma UnknownShrinks(rules: Rules, v: VirtualMap, v': VirtualMap, grid: seq<string>, off: Pos, p: Pos)
    requires MarksOnly(v, v', p)
    ensures Unknown(rules, v', grid, off) <= Unknown(rules, v, grid, off)
  {
    forall q | q in Unknown(rules, v', grid, off)
      ensures q in Unknown(rules, v, grid, off)
    {
      UnknownMember(rules, v', grid, off, Unshift(q, off));
      UnknownMember(rules, v, grid, off, Unshift(q, off));
    }
  }

  /** Marking an unknown cell strictly shrinks the set of unknown cells. */
  lemma UnknownLoses(rules: Rules, v: VirtualMap, v': VirtualMap, grid: seq<string>, off: Pos, p: Pos)
    requires MarksOnly(v, v', p)
    requires InGrid(grid, Shift(p, off)) && Passable(rules, Cell(v, p), false)
    requires Cell(v', p) == WALL_CELL || Cell(v', p) == PATH_CELL
    ensures Unknown(rules, v', grid, off) < Unknown(rules, v, grid, off)
  {
    UnknownShrinks(rules, v, v', grid, off, p);
    UnknownMember(rules, v, grid, off, p);
    UnknownMember(rules, v', grid, off, p);
  }

  lemma AgreesAfterMark(v: VirtualMap, v': VirtualMap, grid: seq<string>, off: Pos, p: Pos)
    requires Agrees(v, grid, off) && MarksOnly(v, v', p)
    requires Cell(v', p) != EMPTY_CELL ==> InGrid(grid, Shift(p, off)) && Consistent(Cell(v', p), At(grid, Shift(p, off)))
    ensures Agrees(v', grid, off)
  {
    forall q | Cell(v', q) != EMPTY_CELL
      ensures InGrid(grid, Shift(q, off)) && Consistent(Cell(v', q), At(grid, Shift(q, off)))
    {
      if q != p {
        assert Cell(v', q) == Cell(v, q);
      }
    }
  }

  /** Whatever the maze answers, `adapterGo` never makes a cell unknown again. */
  lemma AdapterGoShrinks(rules: Rules, a: Agent, d: Direction, off: Pos)
    requires Valid(a.maze)
    ensures var r := AdapterGo(rules, a, d);
      && r.1.maze.grid == a.maze.grid
      && Unknown(rules, r.1.vmap, a.maze.grid, off) <= Unknown(rules, a.vmap, a.maze.grid, off)
  {
    var r := AdapterGo(rules, a, d);
    if r.0 == FalseSignal {
      UnknownShrinks(rules, a.vmap, r.1.vmap, a.maze.grid, off, Neighbour(a.vpos, d));
    } else {
      UnknownShrinks(rules, a.vmap, r.1.vmap, a.maze.grid, off, r.1.vpos);
    }
  }

  /**
   `adapterGo` keeps the virtual map faithful. Unless the exit was reached,
   the two robots still stand on corresponding cells; a refusal leaves the
   robot in place and happens only at a cell not yet visited; any other
   answer moves the robot one cell; stepping back onto a visited cell always
   succeeds; and no cell becomes unknown again.
   */
  lemma AdapterGoKeepsSync(rules: Rules, a: Agent, d: Direction, off: Pos)
    requires Synced(a, off)
    ensures var r := AdapterGo(rules, a, d);
      && r.1.maze.grid == a.maze.grid
      && (r.0 != WinSignal ==> Synced(r.1, off))
      && KeepsVisited(a.vmap, r.1.vmap)
      && (r.0 == FalseSignal ==> r.1.vpos == a.vpos && !Visited(Cell(a.vmap, Neighbour(a.vpos, d))))
      && (r.0 != FalseSignal ==> r.1.vpos == Neighbour(a.vpos, d))
      && (r.0 == WinSignal ==> At(a.maze.grid, Shift(r.1.vpos, off)) == EXIT && Cell(r.1.vmap, r.1.vpos) == PATH_CELL)
      && InGrid(a.maze.grid, Shift(Neighbour(a.vpos, d), off))
      && (At(a.maze.grid, Shift(Neighbour(a.vpos, d), off)) == EXIT ==> r.0 == WinSignal)
      && (Visited(Cell(a.vmap, Neighbour(a.vpos, d))) ==> r.0 == TrueSignal)
      && Unknown(rules, r.1.vmap, a.maze.grid, off) <= Unknown(rules, a.vmap, a.maze.grid, off)
      && (r.0 != FalseSignal && Passable(rules, Cell(a.vmap, Neighbour(a.vpos, d)), false) ==>
            Unknown(rules, r.1.vmap, a.maze.grid, off) < Unknown(rules, a.vmap, a.maze.grid, off))
  {
    var grid := a.maze.grid;
    var target := Neighbour(a.vpos, d);
    var actual := Shift(target, off);
    ShiftNeighbour(a.vpos, d, off);
    var r := AdapterGo(rules, a, d);
    assert InGrid(grid, actual);
    if Cell(a.vmap, target) != EMPTY_CELL {
      assert Consistent(Cell(a.vmap, target), At(grid, actual));
    }
    if r.0 == FalseSignal {
      AgreesAfterMark(a.vmap, r.1.vmap, grid, off, target);
      UnknownShrinks(rules, a.vmap, r.1.vmap, grid, off, target);
    } else {
      assert r.1.vpos == target;
      if r.0 == TrueSignal {
        AgreesAfterMark(a.vmap, r.1.vmap, grid, off, target);
      }
      if Passable(rules, Cell(a.vmap, target), false) {
        UnknownLoses(rules, a.vmap, r.1.vmap, grid, off, target);
      } else {
        UnknownShrinks(rules, a.vmap, r.1.vmap, grid, off, target);
      }
    }
  }

  /**
   The same for one attempt of the search (`virtualCheck` without the
   override, then `adapterGo`): a refused attempt leaves the robot in place,
   any other moves it one cell onto a newly marked path cell, and an attempt
   that gets through always marks a cell that was unknown.
   */
  lemma TryKeepsSync(rules: Rules, a: Agent, d: Direction, off: Pos)
    requires Synced(a, off)
    ensures var t := Try(rules, a, d);
      && t.1.maze.grid == a.maze.grid
      && (t.0 != WinSignal ==> Synced(t.1, off))
      && KeepsVisited(a.vmap, t.1.vmap)
      && (t.0 == FalseSignal ==> t.1.vpos == a.vpos)
      && (t.0 != FalseSignal ==> t.1.vpos == Neighbour(a.vpos, d) && Cell(t.1.vmap, t.1.vpos) == PATH_CELL)
      && (t.0 == WinSignal ==> At(a.maze.grid, Shift(t.1.vpos, off)) == EXIT)
      && Unknown(rules, t.1.vmap, a.maze.grid, off) <= Unknown(rules, a.vmap, a.maze.grid, off)
      && (t.0 != FalseSignal ==> Unknown(rules, t.1.vmap, a.maze.grid, off) < Unknown(rules, a.vmap, a.maze.grid, off))
  {
    if Passable(rules, Cell(a.vmap, Neighbour(a.vpos, d)), false) {
      AdapterGoKeepsSync(rules, a, d, off);
    }
  }

  lemma SubsetTrans(a: set<Pos>, b: set<Pos>, c: set<Pos>)
    requires a <= b && b <= c
    ensures a <= c
  {
  }

  lemma ProperSubsetSmaller(a: set<Pos>, b: set<Pos>)
    requires a < b
    ensures |a| < |b|
  {
    assert b - a != {};
    var x :| x in b - a;
    var rest := b - {x};
    assert a <= rest;
    assert b == rest + {x};
    SubsetNoLarger(a, rest);
  }

  lemma {:induction false} SubsetNoLarger(a: set<Pos>, b: set<Pos>)
    requires a <= b
    ensures |a| <= |b|
    decreases |a|
  {
    if a != {} {
      var x :| x in a;
      SubsetNoLarger(a - {x}, b - {x});
    }
  }
}
