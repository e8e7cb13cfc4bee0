/**
 The search engine of `Robot.java`: every branch is a single step. A branch
 that gets through ends at once and pushes two perpendicular branches; an
 ended branch on top is undone by one step back and popped; a branch that
 is refused is simply popped.
 */
module Robot {
  import opened Geometry
  import opened Oracle
  import opened Stack
  import opened VirtualMaps
  import opened Tracking

  /** A branch as this engine uses it: a direction, and whether the step in it was taken. */
  datatype Branch = Branch(direction: Direction, end: bool)

  /** The fields of the engine plus the loop's `currentResult == "win"` test. */
  datatype State = State(agent: Agent, branches: Stack<Branch>, won: bool)

  /**
   The constructor and the first lines of `navigate`: the start cell marked
   as path in the middle of the virtual map, and four branches pushed LEFT,
   RIGHT, DOWN, UP, so that UP is tried first.
   */
  function Start(grid: seq<string>, start: Pos): (s: State)
    ensures s.agent.vpos == Origin && Cell(s.agent.vmap, Origin) == PATH_CELL
    ensures forall p :: p != Origin ==> Cell(s.agent.vmap, p) == EMPTY_CELL
    ensures s.agent.maze == Maze(grid, start, 0) && !s.won
    ensures s.branches.items == [Branch(Up, false), Branch(Down, false), Branch(Right, false), Branch(Left, false)]
    ensures Peek(s.branches) == Some(Branch(Up, false))
  {
    var seeds := Push(Push(Push(Push(Empty(), Branch(Left, false)), Branch(Right, false)), Branch(Down, false)), Branch(Up, false));
    State(Agent(map[Origin := PATH_CELL], Origin, Maze(grid, start, 0)), seeds, false)
  }

  /**
   `splitBranch`: exactly two fresh branches, both perpendicular to `d`;
   after UP or DOWN, RIGHT is on top, after LEFT or RIGHT, UP is.
   */
  function SplitBranch(st: Stack<Branch>, d: Direction): (r: Stack<Branch>)
    ensures Size(r) == Size(st) + 2 && r.items[2..] == st.items
    ensures !r.items[0].end && !r.items[1].end
    ensures Perpendicular(r.items[0].direction, d) && Perpendicular(r.items[1].direction, d)
    ensures r.items[1].direction == Inverse(r.items[0].direction)
    ensures Vertical(d) ==> r.items[0].direction == Right
    ensures !Vertical(d) ==> r.items[0].direction == Up
  {
    match d
    case Up | Down => Push(Push(st, Branch(Left, false)), Branch(Right, false))
    case Left | Right => Push(Push(st, Branch(Down, false)), Branch(Up, false))
  }

  /**
   One iteration of the `navigate` loop with a branch on top. An ended
   branch costs exactly one request to the real maze, in the opposite
   direction, and is popped. Otherwise a refused attempt pops the branch,
   and an attempt that got through ends it and splits.
   */
  function Step(s: State): (r: State)
    requires !IsEmpty(s.branches) && Valid(s.agent.maze)
    ensures Valid(r.agent.maze) && r.agent.maze.grid == s.agent.maze.grid
    ensures var b := s.branches.items[0];
      b.end ==>
        && r.branches.items == s.branches.items[1..]
        && r.agent == AdapterGo(RobotRules, s.agent, Inverse(b.direction)).1
        && r.agent.maze.steps == s.agent.maze.steps + 1
        && r.won == s.won
    ensures var b := s.branches.items[0];
      var t := Try(RobotRules, s.agent, b.direction);
      !b.end && t.0 == FalseSignal ==>
        r.branches.items == s.branches.items[1..] && r.agent == t.1 && !r.won
    ensures var b := s.branches.items[0];
      var t := Try(RobotRules, s.agent, b.direction);
      !b.end && t.0 != FalseSignal ==>
        && Size(r.branches) == Size(s.branches) + 2
        && r.branches.items[2..] == [b.(end := true)] + s.branches.items[1..]
        && !r.branches.items[0].end && !r.branches.items[1].end
        && Perpendicular(r.branches.items[0].direction, b.direction)
        && Perpendicular(r.branches.items[1].direction, b.direction)
        && r.agent == t.1 && r.won == (t.0 == WinSignal)
  {
    var b := Peek(s.branches).value;
    if b.end then
      var (_, a) := AdapterGo(RobotRules, s.agent, Opposite(Named(b.direction)).dir);
      State(a, Pop(s.branches).1, s.won)
    else
      var (result, a) := Try(RobotRules, s.agent, b.direction);
      if result == FalseSignal then
        State(a, Pop(s.branches).1, false)
      else
        State(a, SplitBranch(UpdateTop(s.branches, b.(end := true)), b.direction), result == WinSignal)
  }

  /**
   After the loop: the start cell is marked `R`, and after a win the cell
   the robot reached is marked `G`. Nothing else changes.
   */
  function Finish(s: State): (r: State)
    ensures r.branches == s.branches && r.won == s.won && r.agent.vpos == s.agent.vpos
    ensures r.agent.maze == s.agent.maze
    ensures s.won ==> Cell(r.agent.vmap, s.agent.vpos) == GATE_MARK
    ensures !s.won || s.agent.vpos != Origin ==> Cell(r.agent.vmap, Origin) == START_MARK
    ensures forall p :: p != Origin && p != s.agent.vpos ==> Cell(r.agent.vmap, p) == Cell(s.agent.vmap, p)
  {
    var v := Mark(s.agent.vmap, Origin, START_MARK);
    var v' := if s.won then Mark(v, s.agent.vpos, GATE_MARK) else v;
    s.(agent := s.agent.(vmap := v'))
  }

  // ---------------------------------------------------------------------
  // The invariant of the search

  /** Where the ended branches lead: the origin moved one cell along each of them, bottom first. */
  function TrailEnd(items: seq<Branch>): Pos
  {
    if |items| == 0 then Origin
    else if items[0].end then Neighbour(TrailEnd(items[1..]), items[0].direction)
    else TrailEnd(items[1..])
  }

  /** Every cell on the way from the origin along the ended branches is marked visited. */
  ghost predicate TrailVisited(items: seq<Branch>, v: VirtualMap)
  {
    forall i :: 0 <= i <= |items| ==> Visited(Cell(v, TrailEnd(items[i..])))
  }

  ghost predicate Inv(s: State, off: Pos)
  {
    && Synced(s.agent, off)
    && s.agent.vpos == TrailEnd(s.branches.items)
    && TrailVisited(s.branches.items, s.agent.vmap)
  }

  ghost predicate WonAt(s: State, off: Pos)
  {
    && InGrid(s.agent.maze.grid, Shift(s.agent.vpos, off))
    && At(s.agent.maze.grid, Shift(s.agent.vpos, off)) == EXIT
  }

  lemma TrailKept(items: seq<Branch>, v: VirtualMap, v': VirtualMap)
    requires TrailVisited(items, v) && KeepsVisited(v, v')
    ensures TrailVisited(items, v')
  {
  }

  lemma TrailPop(items: seq<Branch>, v: VirtualMap)
    requires |items| > 0 && TrailVisited(items, v)
    ensures TrailVisited(items[1..], v)
  {
    forall i | 0 <= i <= |items| - 1
      ensures Visited(Cell(v, TrailEnd(items[1..][i..])))
    {
      assert items[1..][i..] == items[i + 1..];
    }
  }

  /** The trail seen from one more branch: an ended branch adds its step, a pending one adds nothing. */
  lemma TrailEndCons(b: Branch, items: seq<Branch>)
    ensures TrailEnd([b] + items) == if b.end then Neighbour(TrailEnd(items), b.direction) else TrailEnd(items)
  {
    assert ([b] + items)[1..] == items;
  }

  /** A branch on top of a visited trail keeps it visited if the trail's new end is. */
  lemma TrailVisitedCons(b: Branch, items: seq<Branch>, v: VirtualMap)
    requires TrailVisited(items, v) && Visited(Cell(v, TrailEnd([b] + items)))
    ensures TrailVisited([b] + items, v)
  {
    var items' := [b] + items;
    forall i | 0 <= i <= |items'|
      ensures Visited(Cell(v, TrailEnd(items'[i..])))
    {
      if i == 0 {
        assert items'[i..] == items';
      } else {
        assert items'[i..] == items[i - 1..];
      }
    }
  }

  /** Ending the top branch and splitting extends the trail by the cell the robot moved onto. */
  lemma TrailSplit(items: seq<Branch>, v: VirtualMap, x: Branch, y: Branch)
    requires |items| > 0 && !items[0].end && TrailVisited(items, v)
    requires !x.end && !y.end
    requires Visited(Cell(v, Neighbour(TrailEnd(items), items[0].direction)))
    ensures var items' := [x, y, items[0].(end := true)] + items[1..];
      && TrailEnd(items') == Neighbour(TrailEnd(items), items[0].direction)
      && TrailVisited(items', v)
  {
    var b' := items[0].(end := true);
    var rest := items[1..];
    var tail2 := [b'] + rest;
    var tail1 := [y] + tail2;
    assert items == [items[0]] + rest;
    TrailEndCons(items[0], rest);
    TrailEndCons(b', rest);
    TrailEndCons(y, tail2);
    TrailEndCons(x, tail1);
    TrailPop(items, v);
    TrailVisitedCons(b', rest, v);
    TrailVisitedCons(y, tail2, v);
    TrailVisitedCons(x, tail1, v);
    assert [x] + tail1 == [x, y, b'] + rest;
  }

  /** What one iteration achieves; `StepKeepsInvariant` spells it out. */
  ghost predicate Progressed(s: State, r: State, off: Pos)
  {
    && r.agent.maze.grid == s.agent.maze.grid
    && (r.won ==> WonAt(r, off))
    && (!r.won ==> Inv(r, off))
    && (|| r.won
        || Unknown(RobotRules, r.agent.vmap, s.agent.maze.grid, off) < Unknown(RobotRules, s.agent.vmap, s.agent.maze.grid, off)
        || (&& Unknown(RobotRules, r.agent.vmap, s.agent.maze.grid, off) == Unknown(RobotRules, s.agent.vmap, s.agent.maze.grid, off)
            && Size(r.branches) < Size(s.branches)))
  }

  lemma StepUndone(s: State, off: Pos)
    requires Inv(s, off) && !IsEmpty(s.branches) && !s.won && s.branches.items[0].end
    ensures Progressed(s, Step(s), off)
    ensures Step(s).agent.vpos == Neighbour(s.agent.vpos, Inverse(s.branches.items[0].direction))
  {
    var items := s.branches.items;
    var b := items[0];
    var r := Step(s);
    assert TrailEnd(items) == Neighbour(TrailEnd(items[1..]), b.direction);
    assert Visited(Cell(s.agent.vmap, TrailEnd(items[1..]))) by {
      assert items[1..] == items[1..][..];
    }
    AdapterGoKeepsSync(RobotRules, s.agent, Inverse(b.direction), off);
    TrailPop(items, s.agent.vmap);
    TrailKept(items[1..], s.agent.vmap, r.agent.vmap);
  }

  lemma StepRefused(s: State, off: Pos)
    requires Inv(s, off) && !IsEmpty(s.branches) && !s.branches.items[0].end
    requires Try(RobotRules, s.agent, s.branches.items[0].direction).0 == FalseSignal
    ensures Progressed(s, Step(s), off)
    ensures Step(s).agent.vpos == s.agent.vpos
  {
    var items := s.branches.items;
    var b := items[0];
    TryKeepsSync(RobotRules, s.agent, b.direction, off);
    TrailPop(items, s.agent.vmap);
    TrailKept(items[1..], s.agent.vmap, Step(s).agent.vmap);
  }

  lemma StepSplit(s: State, off: Pos)
    requires Inv(s, off) && !IsEmpty(s.branches) && !s.branches.items[0].end
    requires Try(RobotRules, s.agent, s.branches.items[0].direction).0 != FalseSignal
    ensures Progressed(s, Step(s), off)
    ensures Step(s).agent.vpos == Neighbour(s.agent.vpos, s.branches.items[0].direction)
  {
    var items := s.branches.items;
    var b := items[0];
    var t := Try(RobotRules, s.agent, b.direction);
    var r := Step(s);
    TryKeepsSync(RobotRules, s.agent, b.direction, off);
    if t.0 == TrueSignal {
      TrailKept(items, s.agent.vmap, t.1.vmap);
      var ri := r.branches.items;
      assert ri == [ri[0], ri[1], b.(end := true)] + items[1..] by {
        assert ri[2..] == [b.(end := true)] + items[1..];
      }
      TrailSplit(items, t.1.vmap, ri[0], ri[1]);
    }
  }

  /**
   One iteration keeps the invariant until the exit is found, and then the
   robot stands on the virtual image of the exit. An ended branch moves the
   robot one cell back against its direction, a refused branch leaves it in
   place, and a branch that gets through moves it one cell along. Every
   iteration that does not win either marks a new cell or, with no new cell
   marked, pops a branch.
   */
  lemma StepKeepsInvariant(s: State, off: Pos)
    requires Inv(s, off) && !IsEmpty(s.branches) && !s.won
    ensures var r := Step(s);
      && r.agent.maze.grid == s.agent.maze.grid
      && (r.won ==> WonAt(r, off))
      && (!r.won ==> Inv(r, off))
      && (|| r.won
          || Unknown(RobotRules, r.agent.vmap, s.agent.maze.grid, off) < Unknown(RobotRules, s.agent.vmap, s.agent.maze.grid, off)
          || (&& Unknown(RobotRules, r.agent.vmap, s.agent.maze.grid, off) == Unknown(RobotRules, s.agent.vmap, s.agent.maze.grid, off)
              && Size(r.branches) < Size(s.branches)))
  {
    var b := s.branches.items[0];
    if b.end {
      StepUndone(s, off);
    } else if Try(RobotRules, s.agent, b.direction).0 == FalseSignal {
      StepRefused(s, off);
    } else {
      StepSplit(s, off);
    }
  }

  lemma StartKeepsInvariant(grid: seq<string>, start: Pos)
    requires WalledIn(grid) && InGrid(grid, start) && At(grid, start) != WALL && At(grid, start) != EXIT
    ensures Inv(Start(grid, start), Offset(start))
  {
    var s := Start(grid, start);
    OpenIsInterior(grid, start);
    UnwalkedTrail(s.branches.items, s.agent.vmap);
  }

  /** Branches that were never walked lead nowhere: their trail is the origin, visited if the origin is. */
  lemma {:induction false} UnwalkedTrail(items: seq<Branch>, v: VirtualMap)
    requires forall i :: 0 <= i < |items| ==> !items[i].end
    requires Visited(Cell(v, Origin))
    ensures TrailEnd(items) == Origin && TrailVisited(items, v)
  {
    if |items| == 0 {
      assert items[0..] == items;
    } else {
      UnwalkedTrail(items[1..], v);
      assert items == [items[0]] + items[1..];
      TrailEndCons(items[0], items[1..]);
      TrailVisitedCons(items[0], items[1..], v);
    }
  }

  /**
   `navigate`: runs the loop until the exit is found or the stack is empty,
   and always stops; then marks the start `R` and, after a win, the reached
   cell `G`, which is the virtual image of the exit. Without a win every
   step taken has been undone and both robots are back at the start.
   */
  method Navigate(grid: seq<string>, start: Pos) returns (s: State)
    requires WalledIn(grid) && InGrid(grid, start) && At(grid, start) != WALL && At(grid, start) != EXIT
    ensures s.agent.maze.grid == grid
    ensures s.won || IsEmpty(s.branches)
    ensures Cell(s.agent.vmap, Origin) == START_MARK
    ensures s.won ==> WonAt(s, Offset(start)) && Cell(s.agent.vmap, s.agent.vpos) == GATE_MARK
    ensures !s.won ==> s.agent.vpos == Origin && s.agent.maze.robot == start
  {
    var off := Offset(start);
    s := Start(grid, start);
    StartKeepsInvariant(grid, start);
    while !s.won && !IsEmpty(s.branches)
      invariant s.agent.maze.grid == grid
      invariant s.won ==> WonAt(s, off)
      invariant !s.won ==> Inv(s, off)
      decreases if s.won then 0 else 1, |Unknown(RobotRules, s.agent.vmap, grid, off)|, Size(s.branches)
    {
      ghost var before := Unknown(RobotRules, s.agent.vmap, grid, off);
      StepKeepsInvariant(s, off);
      var next := Step(s);
      ghost var after := Unknown(RobotRules, next.agent.vmap, grid, off);
      if after < before {
        ProperSubsetSmaller(after, before);
      }
      s := next;
    }
    s := Finish(s);
  }
}
