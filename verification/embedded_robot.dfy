/**
 The search engine embedded in `Maze.java` (its own `Robot` class): every
 branch is a straight line. A successful move only lengthens the branch on
 top; a blocked one either retraces and drops an ended branch, drops a
 branch that never moved, or ends the branch and forks two perpendicular
 branches at the current cell.
 */
module EmbeddedRobot {
  import opened Geometry
  import opened Oracle
  import opened Stack
  import opened Branches
  import opened VirtualMaps
  import opened Tracking

  /** The fields of the engine plus the loop's `currentResult == "win"` test. */
  datatype State = State(agent: Agent, branches: Stack<Branch>, won: bool)

  /**
   The constructor and the first lines of `navigate`: the start cell marked
   `R` in the middle of the virtual map, and four branches from it pushed
   DOWN, LEFT, RIGHT, UP, so that UP is tried first.
   */
  function Start(grid: seq<string>, start: Pos): (s: State)
    ensures s.agent.vpos == Origin && Cell(s.agent.vmap, Origin) == START_MARK
    ensures forall p :: p != Origin ==> Cell(s.agent.vmap, p) == EMPTY_CELL
    ensures s.agent.maze == Maze(grid, start, 0) && !s.won
    ensures s.branches.items == [New(Origin, Up), New(Origin, Right), New(Origin, Left), New(Origin, Down)]
    ensures Peek(s.branches) == Some(New(Origin, Up))
  {
    var seeds := Push(Push(Push(Push(Empty(), New(Origin, Down)), New(Origin, Left)), New(Origin, Right)), New(Origin, Up));
    State(Agent(map[Origin := START_MARK], Origin, Maze(grid, start, 0)), seeds, false)
  }

  /**
   The two branches pushed above a branch that has just ended, both anchored
   at `at`: after UP or DOWN, RIGHT then LEFT (LEFT on top); after LEFT or
   RIGHT, UP then DOWN (DOWN on top).
   */
  function Fork(st: Stack<Branch>, d: Direction, at: Pos): (r: Stack<Branch>)
    ensures Size(r) == Size(st) + 2 && r.items[2..] == st.items
    ensures r.items[0] == New(at, r.items[0].direction) && r.items[1] == New(at, r.items[1].direction)
    ensures Perpendicular(r.items[0].direction, d) && Perpendicular(r.items[1].direction, d)
    ensures r.items[1].direction == Inverse(r.items[0].direction)
    ensures Vertical(d) ==> r.items[0].direction == Left
    ensures !Vertical(d) ==> r.items[0].direction == Down
  {
    if Vertical(d) then Push(Push(st, New(at, Right)), New(at, Left))
    else Push(Push(st, New(at, Up)), New(at, Down))
  }

  /**
   `backtrack`: `n` calls of `adapterGo` in the direction opposite to `d`.
   Each call is one request to the real maze.
   */
  function Backtrack(a: Agent, d: Direction, n: nat): (r: Agent)
    requires Valid(a.maze)
    ensures Valid(r.maze)
    ensures r.maze.grid == a.maze.grid
    ensures r.maze.steps == a.maze.steps + n
    decreases n
  {
    if n == 0 then a
    else Backtrack(AdapterGo(MazeRules, a, Inverse(d)).1, d, n - 1)
  }

  /**
   One iteration of the `navigate` loop with a branch on top. The outcome
   decides everything: a move that was not refused adds one cell to the top
   branch and pushes nothing; a refused move retraces exactly `steps` cells
   and pops an ended branch, pops a branch still at its origin without
   moving, and otherwise ends the branch and forks two perpendicular
   branches at the current cell above it.
   */
  function Step(s: State): (r: State)
    requires !IsEmpty(s.branches) && Valid(s.agent.maze)
    ensures Valid(r.agent.maze) && r.agent.maze.grid == s.agent.maze.grid
    ensures var b := s.branches.items[0];
      var t := Try(MazeRules, s.agent, b.direction);
      && (t.0 != FalseSignal ==>
            && r.branches.items == [b.(steps := b.steps + 1)] + s.branches.items[1..]
            && r.agent.vpos == t.1.vpos && r.agent.maze == t.1.maze
            && r.agent.vmap == (if t.0 == WinSignal then Mark(t.1.vmap, t.1.vpos, EXIT_MARK) else t.1.vmap)
            && r.won == (t.0 == WinSignal))
      && (t.0 == FalseSignal && b.end ==>
            && r.branches.items == s.branches.items[1..]
            && r.agent.maze.steps == t.1.maze.steps + b.steps
            && !r.won)
      && (t.0 == FalseSignal && !b.end && b.pos == t.1.vpos ==>
            r.branches.items == s.branches.items[1..] && r.agent == t.1 && !r.won)
      && (t.0 == FalseSignal && !b.end && b.pos != t.1.vpos ==>
            && Size(r.branches) == Size(s.branches) + 2
            && r.branches.items[2..] == [b.(end := true)] + s.branches.items[1..]
            && r.branches.items[0] == New(t.1.vpos, r.branches.items[0].direction)
            && r.branches.items[1] == New(t.1.vpos, r.branches.items[1].direction)
            && Perpendicular(r.branches.items[0].direction, b.direction)
            && Perpendicular(r.branches.items[1].direction, b.direction)
            && r.agent == t.1 && !r.won)
  {
    var b := Peek(s.branches).value;
    var t := Try(MazeRules, s.agent, b.direction);
    var result := t.0;
    var a := t.1;
    if result == FalseSignal then
      if b.end then
        State(Backtrack(a, b.direction, b.steps), Pop(s.branches).1, false)
      else if b.pos == a.vpos then
        State(a, Pop(s.branches).1, false)
      else
        State(a, Fork(UpdateTop(s.branches, b.(end := true)), b.direction, a.vpos), false)
    else
      var a' := if result == WinSignal then a.(vmap := Mark(a.vmap, a.vpos, EXIT_MARK)) else a;
      State(a', UpdateTop(s.branches, b.(steps := b.steps + 1)), result == WinSignal)
  }

  // ---------------------------------------------------------------------
  // The invariant of the search

  /** The `k`-th cell of a branch's line, its origin being cell 0. */
  function Point(b: Branch, k: nat): Pos
  {
    Advance(b.pos, b.direction, k)
  }

  /**
   Each branch starts where the branch below it has got to, the robot stands
   at the tip of the top branch, and the bottom branch starts at the origin.
   */
  ghost predicate Chained(items: seq<Branch>, vpos: Pos)
  {
    && (|items| > 0 ==> vpos == Tip(items[0]) && items[|items| - 1].pos == Origin)
    && (|items| == 0 ==> vpos == Origin)
    && (forall i :: 0 <= i < |items| - 1 ==> items[i].pos == Tip(items[i + 1]))
  }

  /** Every cell a branch on the stack has walked over is marked visited. */
  ghost predicate TrailsVisited(items: seq<Branch>, v: VirtualMap)
  {
    forall i, k :: 0 <= i < |items| && 0 <= k <= items[i].steps ==> Visited(Cell(v, Point(items[i], k)))
  }

  ghost predicate Inv(s: State, off: Pos)
  {
    && Synced(s.agent, off)
    && Chained(s.branches.items, s.agent.vpos)
    && TrailsVisited(s.branches.items, s.agent.vmap)
  }

  /** The situation after the exit was found: the virtual robot stands on the virtual image of the exit, marked `X`. */
  ghost predicate WonAt(s: State, off: Pos)
  {
    && InGrid(s.agent.maze.grid, Shift(s.agent.vpos, off))
    && At(s.agent.maze.grid, Shift(s.agent.vpos, off)) == EXIT
    && Cell(s.agent.vmap, s.agent.vpos) == EXIT_MARK
  }

  lemma TrailsKept(items: seq<Branch>, v: VirtualMap, v': VirtualMap)
    requires TrailsVisited(items, v) && KeepsVisited(v, v')
    ensures TrailsVisited(items, v')
  {
  }

  /**
   Retracing a straight line: from `n` cells along `d` from `p`, over cells
   all visited, `n` backward moves bring both robots back to `p`.
   */
  lemma {:induction false} BacktrackReturns(a: Agent, d: Direction, n: nat, p: Pos, off: Pos)
    requires Synced(a, off)
    requires a.vpos == Advance(p, d, n)
    requires forall k :: 0 <= k <= n ==> Visited(Cell(a.vmap, Advance(p, d, k)))
    ensures var r := Backtrack(a, d, n);
      && Synced(r, off) && r.vpos == p
      && KeepsVisited(a.vmap, r.vmap)
    decreases n
  {
    if n > 0 {
      RetraceOne(a, d, n, p, off);
      var a1 := AdapterGo(MazeRules, a, Inverse(d)).1;
      BacktrackReturns(a1, d, n - 1, p, off);
      var r := Backtrack(a1, d, n - 1);
      assert Backtrack(a, d, n) == r;
      KeepsVisitedTrans(a.vmap, a1.vmap, r.vmap);
    }
  }

  /** One backward move along a visited line: the robot is one cell nearer to `p` and nothing visited is lost. */
  lemma RetraceOne(a: Agent, d: Direction, n: nat, p: Pos, off: Pos)
    requires Synced(a, off) && n > 0
    requires a.vpos == Advance(p, d, n)
    requires forall k :: 0 <= k <= n ==> Visited(Cell(a.vmap, Advance(p, d, k)))
    ensures var a1 := AdapterGo(MazeRules, a, Inverse(d)).1;
      && Synced(a1, off) && a1.vpos == Advance(p, d, n - 1)
      && a1.maze.grid == a.maze.grid
      && KeepsVisited(a.vmap, a1.vmap)
      && (forall k :: 0 <= k <= n - 1 ==> Visited(Cell(a1.vmap, Advance(p, d, k))))
  {
    AdvanceStep(p, d, n - 1);
    assert Visited(Cell(a.vmap, Advance(p, d, n - 1)));
    AdapterGoKeepsSync(MazeRules, a, Inverse(d), off);
  }

  /** Retracing never makes a cell unknown again: every move only writes wall or path marks. */
  lemma {:induction false} BacktrackShrinks(a: Agent, d: Direction, n: nat, off: Pos)
    requires Valid(a.maze)
    ensures Backtrack(a, d, n).maze.grid == a.maze.grid
    ensures Unknown(MazeRules, Backtrack(a, d, n).vmap, a.maze.grid, off) <= Unknown(MazeRules, a.vmap, a.maze.grid, off)
    decreases n
  {
    if n > 0 {
      var g := a.maze.grid;
      var a1 := AdapterGo(MazeRules, a, Inverse(d)).1;
      AdapterGoShrinks(MazeRules, a, Inverse(d), off);
      BacktrackShrinks(a1, d, n - 1, off);
      var r := Backtrack(a1, d, n - 1);
      assert Backtrack(a, d, n) == r;
      SubsetTrans(Unknown(MazeRules, r.vmap, g, off), Unknown(MazeRules, a1.vmap, g, off), Unknown(MazeRules, a.vmap, g, off));
    }
  }

  lemma ChainedPop(items: seq<Branch>, vpos: Pos)
    requires |items| > 0 && Chained(items, vpos)
    ensures Chained(items[1..], items[0].pos)
  {
  }

  /** A fresh branch anchored where the robot stands keeps the chain. */
  lemma ChainedPush(items: seq<Branch>, vpos: Pos, d: Direction)
    requires Chained(items, vpos)
    requires |items| == 0 ==> vpos == Origin
    ensures Chained([New(vpos, d)] + items, vpos)
  {
    var items' := [New(vpos, d)] + items;
    forall i | 0 <= i < |items'| - 1
      ensures items'[i].pos == Tip(items'[i + 1])
    {
      if i > 0 {
        assert items'[i] == items[i - 1];
      }
    }
  }

  lemma TrailsPop(items: seq<Branch>, v: VirtualMap)
    requires |items| > 0 && TrailsVisited(items, v)
    ensures TrailsVisited(items[1..], v)
  {
    forall i, k | 0 <= i < |items| - 1 && 0 <= k <= items[1..][i].steps
      ensures Visited(Cell(v, Point(items[1..][i], k)))
    {
      assert items[1..][i] == items[i + 1];
    }
  }

  lemma TrailsPush(items: seq<Branch>, v: VirtualMap, at: Pos, d: Direction)
    requires TrailsVisited(items, v) && Visited(Cell(v, at))
    ensures TrailsVisited([New(at, d)] + items, v)
  {
    var items' := [New(at, d)] + items;
    forall i, k | 0 <= i < |items'| && 0 <= k <= items'[i].steps
      ensures Visited(Cell(v, Point(items'[i], k)))
    {
      if i > 0 {
        assert items'[i] == items[i - 1];
      }
    }
  }

  /** Replacing the top branch by one with the same line, whose walked cells are all visited. */
  lemma TopReplaced(items: seq<Branch>, v: VirtualMap, b': Branch)
    requires |items| > 0 && Chained(items, Tip(items[0])) && TrailsVisited(items, v)
    requires b'.pos == items[0].pos && b'.direction == items[0].direction
    requires forall k :: 0 <= k <= b'.steps ==> Visited(Cell(v, Point(b', k)))
    ensures Chained([b'] + items[1..], Tip(b')) && TrailsVisited([b'] + items[1..], v)
  {
    var items' := [b'] + items[1..];
    forall i | 0 <= i < |items'| - 1
      ensures items'[i].pos == Tip(items'[i + 1])
    {
      assert items'[i + 1] == items[i + 1];
    }
    forall i, k | 0 <= i < |items'| && 0 <= k <= items'[i].steps
      ensures Visited(Cell(v, Point(items'[i], k)))
    {
      if i > 0 {
        assert items'[i] == items[i];
      }
    }
  }

  /** Two fresh branches anchored where the robot stands. */
  lemma PushTwo(below: seq<Branch>, v: VirtualMap, vpos: Pos, x: Direction, y: Direction)
    requires |below| > 0 && Chained(below, vpos) && TrailsVisited(below, v) && Visited(Cell(v, vpos))
    ensures Chained([New(vpos, x), New(vpos, y)] + below, vpos)
    ensures TrailsVisited([New(vpos, x), New(vpos, y)] + below, v)
  {
    ChainedPush(below, vpos, y);
    TrailsPush(below, v, vpos, y);
    ChainedPush([New(vpos, y)] + below, vpos, x);
    TrailsPush([New(vpos, y)] + below, v, vpos, x);
    assert [New(vpos, x)] + ([New(vpos, y)] + below) == [New(vpos, x), New(vpos, y)] + below;
  }

  // ---------------------------------------------------------------------
  // Termination

  /**
   A branch that has walked and not yet ended may still fork into three
   stack entries, so it weighs more than those three together.
   */
  function BranchWeight(b: Branch): nat
  {
    if !b.end && b.steps > 0 then 4 else 1
  }

  function Weight(items: seq<Branch>): nat
  {
    if |items| == 0 then 0 else BranchWeight(items[0]) + Weight(items[1..])
  }

  lemma WeightCons(b: Branch, items: seq<Branch>)
    ensures Weight([b] + items) == BranchWeight(b) + Weight(items)
  {
    assert ([b] + items)[1..] == items;
  }

  /** A move that got through lengthens the top branch by the cell the robot now stands on. */
  lemma MovedCase(items: seq<Branch>, v: VirtualMap, a: Agent)
    requires |items| > 0 && Chained(items, Tip(items[0])) && TrailsVisited(items, v)
    requires KeepsVisited(v, a.vmap)
    requires a.vpos == Neighbour(Tip(items[0]), items[0].direction) && Visited(Cell(a.vmap, a.vpos))
    ensures var b' := items[0].(steps := items[0].steps + 1);
      Chained([b'] + items[1..], a.vpos) && TrailsVisited([b'] + items[1..], a.vmap)
  {
    var b := items[0];
    var b' := b.(steps := b.steps + 1);
    AdvanceStep(b.pos, b.direction, b.steps);
    TrailsKept(items, v, a.vmap);
    forall k | 0 <= k <= b'.steps
      ensures Visited(Cell(a.vmap, Point(b', k)))
    {
      if k <= b.steps {
        assert Point(b', k) == Point(b, k);
      }
    }
    TopReplaced(items, a.vmap, b');
  }

  /** Retracing an ended branch brings the robot back to its origin, where the branch below has got to. */
  lemma RetraceCase(items: seq<Branch>, a: Agent, off: Pos)
    requires |items| > 0 && Synced(a, off)
    requires Chained(items, a.vpos) && TrailsVisited(items, a.vmap)
    ensures var r := Backtrack(a, items[0].direction, items[0].steps);
      && Synced(r, off) && r.vpos == items[0].pos
      && Chained(items[1..], r.vpos) && TrailsVisited(items[1..], r.vmap)
      && Unknown(MazeRules, r.vmap, a.maze.grid, off) <= Unknown(MazeRules, a.vmap, a.maze.grid, off)
  {
    var b := items[0];
    forall k | 0 <= k <= b.steps
      ensures Visited(Cell(a.vmap, Advance(b.pos, b.direction, k)))
    {
      assert Point(b, k) == Advance(b.pos, b.direction, k);
    }
    BacktrackReturns(a, b.direction, b.steps, b.pos, off);
    BacktrackShrinks(a, b.direction, b.steps, off);
    var r := Backtrack(a, b.direction, b.steps);
    ChainedPop(items, a.vpos);
    TrailsPop(items, a.vmap);
    TrailsKept(items[1..], a.vmap, r.vmap);
  }

  function Forked(items: seq<Branch>, vpos: Pos): seq<Branch>
    requires |items| > 0
  {
    Fork(UpdateTop(Stack(items), items[0].(end := true)), items[0].direction, vpos).items
  }

  lemma ForkedShape(items: seq<Branch>, vpos: Pos)
    requires |items| > 0
    ensures var f := Forked(items, vpos);
      f == [New(vpos, f[0].direction), New(vpos, f[1].direction)] + ([items[0].(end := true)] + items[1..])
  {
    var f := Forked(items, vpos);
    assert f[2..] == [items[0].(end := true)] + items[1..];
    assert f == [f[0], f[1]] + f[2..];
  }

  /** Ending a walked branch and forking above it keeps the chain. */
  lemma ForkCase(items: seq<Branch>, v: VirtualMap, vpos: Pos)
    requires |items| > 0 && Chained(items, vpos) && TrailsVisited(items, v) && Visited(Cell(v, vpos))
    ensures Chained(Forked(items, vpos), vpos) && TrailsVisited(Forked(items, vpos), v)
  {
    var b' := items[0].(end := true);
    var f := Forked(items, vpos);
    ForkedShape(items, vpos);
    forall k | 0 <= k <= b'.steps
      ensures Visited(Cell(v, Point(b', k)))
    {
      assert Point(b', k) == Point(items[0], k);
    }
    TopReplaced(items, v, b');
    PushTwo([b'] + items[1..], v, vpos, f[0].direction, f[1].direction);
  }

  /** The fork replaces a walked branch of weight 4 by three entries of weight 1. */
  lemma ForkLightens(items: seq<Branch>, vpos: Pos)
    requires |items| > 0 && !items[0].end && items[0].steps > 0
    ensures Weight(Forked(items, vpos)) < Weight(items)
  {
    var b := items[0];
    var b' := b.(end := true);
    var rest := items[1..];
    var f := Forked(items, vpos);
    ForkedShape(items, vpos);
    assert f == [f[0]] + ([f[1]] + ([b'] + rest));
    WeightCons(f[0], [f[1]] + ([b'] + rest));
    WeightCons(f[1], [b'] + rest);
    WeightCons(b', rest);
    WeightCons(b, rest);
    assert items == [b] + rest;
  }

  /** What one iteration achieves; `StepKeepsInvariant` spells it out. */
  ghost predicate Progressed(s: State, r: State, off: Pos)
    requires !IsEmpty(s.branches)
  {
    && r.agent.maze.grid == s.agent.maze.grid
    && (r.won ==> WonAt(r, off))
    && (!r.won ==> Inv(r, off))
    && (Size(r.branches) < Size(s.branches) ==> r.agent.vpos == s.branches.items[0].pos)
    && (|| r.won
        || Unknown(MazeRules, r.agent.vmap, s.agent.maze.grid, off) < Unknown(MazeRules, s.agent.vmap, s.agent.maze.grid, off)
        || (&& Unknown(MazeRules, r.agent.vmap, s.agent.maze.grid, off) == Unknown(MazeRules, s.agent.vmap, s.agent.maze.grid, off)
            && Weight(r.branches.items) < Weight(s.branches.items)))
  }

  lemma StepMoved(s: State, off: Pos)
    requires Inv(s, off) && !IsEmpty(s.branches)
    requires Try(MazeRules, s.agent, s.branches.items[0].direction).0 == TrueSignal
    ensures Progressed(s, Step(s), off)
  {
    var items := s.branches.items;
    var b := items[0];
    var a := Try(MazeRules, s.agent, b.direction).1;
    var r := Step(s);
    assert r == State(a, Stack([b.(steps := b.steps + 1)] + items[1..]), false);
    TryKeepsSync(MazeRules, s.agent, b.direction, off);
    MovedCase(items, s.agent.vmap, a);
  }

  lemma StepWon(s: State, off: Pos)
    requires Inv(s, off) && !IsEmpty(s.branches)
    requires Try(MazeRules, s.agent, s.branches.items[0].direction).0 == WinSignal
    ensures Progressed(s, Step(s), off)
  {
    var b := s.branches.items[0];
    var a := Try(MazeRules, s.agent, b.direction).1;
    var r := Step(s);
    assert r.agent == a.(vmap := Mark(a.vmap, a.vpos, EXIT_MARK)) && r.won;
    TryKeepsSync(MazeRules, s.agent, b.direction, off);
  }

  lemma StepRetraced(s: State, off: Pos)
    requires Inv(s, off) && !IsEmpty(s.branches) && s.branches.items[0].end
    requires Try(MazeRules, s.agent, s.branches.items[0].direction).0 == FalseSignal
    ensures Progressed(s, Step(s), off)
  {
    var items := s.branches.items;
    var b := items[0];
    var a := Try(MazeRules, s.agent, b.direction).1;
    var r := Step(s);
    assert r == State(Backtrack(a, b.direction, b.steps), Stack(items[1..]), false);
    TryKeepsSync(MazeRules, s.agent, b.direction, off);
    RetracedProgress(s, a, off);
  }

  /** The retrace and pop of an ended branch, once the refused attempt has left the robot in place. */
  lemma RetracedProgress(s: State, a: Agent, off: Pos)
    requires Inv(s, off) && !IsEmpty(s.branches) && s.branches.items[0].end
    requires Synced(a, off) && a.vpos == s.agent.vpos && a.maze.grid == s.agent.maze.grid
    requires KeepsVisited(s.agent.vmap, a.vmap)
    requires Unknown(MazeRules, a.vmap, s.agent.maze.grid, off) <= Unknown(MazeRules, s.agent.vmap, s.agent.maze.grid, off)
    ensures var b := s.branches.items[0];
      Progressed(s, State(Backtrack(a, b.direction, b.steps), Stack(s.branches.items[1..]), false), off)
  {
    var items := s.branches.items;
    var b := items[0];
    TrailsKept(items, s.agent.vmap, a.vmap);
    RetraceCase(items, a, off);
    WeightCons(b, items[1..]);
    assert items == [b] + items[1..];
  }

  lemma StepDropped(s: State, off: Pos)
    requires Inv(s, off) && !IsEmpty(s.branches) && !s.branches.items[0].end
    requires Try(MazeRules, s.agent, s.branches.items[0].direction).0 == FalseSignal
    requires s.branches.items[0].pos == Try(MazeRules, s.agent, s.branches.items[0].direction).1.vpos
    ensures s.branches.items[0].steps == 0
    ensures Progressed(s, Step(s), off)
  {
    var items := s.branches.items;
    var b := items[0];
    var a := Try(MazeRules, s.agent, b.direction).1;
    var r := Step(s);
    assert r == State(a, Stack(items[1..]), false);
    TryKeepsSync(MazeRules, s.agent, b.direction, off);
    TipIsOriginOnlyWhenUnwalked(b);
    TrailsKept(items, s.agent.vmap, a.vmap);
    ChainedPop(items, a.vpos);
    TrailsPop(items, a.vmap);
    WeightCons(b, items[1..]);
    assert items == [b] + items[1..];
  }

  lemma StepForked(s: State, off: Pos)
    requires Inv(s, off) && !IsEmpty(s.branches) && !s.branches.items[0].end
    requires Try(MazeRules, s.agent, s.branches.items[0].direction).0 == FalseSignal
    requires s.branches.items[0].pos != Try(MazeRules, s.agent, s.branches.items[0].direction).1.vpos
    ensures s.branches.items[0].steps > 0
    ensures Progressed(s, Step(s), off)
  {
    var items := s.branches.items;
    var b := items[0];
    var a := Try(MazeRules, s.agent, b.direction).1;
    var r := Step(s);
    assert r == State(a, Stack(Forked(items, a.vpos)), false);
    TryKeepsSync(MazeRules, s.agent, b.direction, off);
    TipIsOriginOnlyWhenUnwalked(b);
    ForkedProgress(s, a, off);
  }

  /** The fork above a walked branch, once the refused attempt has left the robot in place. */
  lemma ForkedProgress(s: State, a: Agent, off: Pos)
    requires Inv(s, off) && !IsEmpty(s.branches) && !s.branches.items[0].end
    requires s.branches.items[0].pos != a.vpos
    requires Synced(a, off) && a.vpos == s.agent.vpos && a.maze.grid == s.agent.maze.grid
    requires KeepsVisited(s.agent.vmap, a.vmap)
    requires Unknown(MazeRules, a.vmap, s.agent.maze.grid, off) <= Unknown(MazeRules, s.agent.vmap, s.agent.maze.grid, off)
    ensures Progressed(s, State(a, Stack(Forked(s.branches.items, a.vpos)), false), off)
  {
    var items := s.branches.items;
    var b := items[0];
    TrailsKept(items, s.agent.vmap, a.vmap);
    assert Tip(b) == a.vpos;
    ForkedInv(items, a, off);
    ForkLightens(items, a.vpos);
    assert |Forked(items, a.vpos)| == |items| + 2;
  }

  lemma ForkedInv(items: seq<Branch>, a: Agent, off: Pos)
    requires |items| > 0 && Synced(a, off) && Chained(items, a.vpos) && TrailsVisited(items, a.vmap)
    ensures Inv(State(a, Stack(Forked(items, a.vpos)), false), off)
  {
    ForkCase(items, a.vmap, a.vpos);
  }

  /**
   One iteration keeps the invariant until the exit is found, and then the
   virtual robot stands on the exit's image. A popped branch leaves the
   robot back at its origin. Every iteration that does not win either marks
   a new cell or, with no new cell marked, lightens the stack.
   */
  lemma StepKeepsInvariant(s: State, off: Pos)
    requires Inv(s, off) && !IsEmpty(s.branches)
    ensures var r := Step(s);
      && r.agent.maze.grid == s.agent.maze.grid
      && (r.won ==> WonAt(r, off))
      && (!r.won ==> Inv(r, off))
      && (Size(r.branches) < Size(s.branches) ==> r.agent.vpos == s.branches.items[0].pos)
      && (|| r.won
          || Unknown(MazeRules, r.agent.vmap, s.agent.maze.grid, off) < Unknown(MazeRules, s.agent.vmap, s.agent.maze.grid, off)
          || (&& Unknown(MazeRules, r.agent.vmap, s.agent.maze.grid, off) == Unknown(MazeRules, s.agent.vmap, s.agent.maze.grid, off)
              && Weight(r.branches.items) < Weight(s.branches.items)))
  {
    var b := s.branches.items[0];
    var t := Try(MazeRules, s.agent, b.direction);
    if t.0 == TrueSignal {
      StepMoved(s, off);
    } else if t.0 == WinSignal {
      StepWon(s, off);
    } else if b.end {
      StepRetraced(s, off);
    } else if b.pos == t.1.vpos {
      StepDropped(s, off);
    } else {
      StepForked(s, off);
    }
  }

  lemma StartKeepsInvariant(grid: seq<string>, start: Pos)
    requires WalledIn(grid) && InGrid(grid, start) && At(grid, start) != WALL && At(grid, start) != EXIT
    ensures Inv(Start(grid, start), Offset(start))
  {
    var s := Start(grid, start);
    var items := s.branches.items;
    OpenIsInterior(grid, start);
    forall i, k | 0 <= i < |items| && 0 <= k <= items[i].steps
      ensures Visited(Cell(s.agent.vmap, Point(items[i], k)))
    {
      assert k == 0;
    }
  }

  /**
   `navigate`: runs the loop until the exit is found or the stack is empty,
   and always stops. On success the virtual robot stands on the cell that
   corresponds to the exit, marked `X`; otherwise every branch has been
   retraced and both robots are back where they started.
   */
  method Navigate(grid: seq<string>, start: Pos) returns (s: State)
    requires WalledIn(grid) && InGrid(grid, start) && At(grid, start) != WALL && At(grid, start) != EXIT
    ensures s.agent.maze.grid == grid
    ensures s.won || IsEmpty(s.branches)
    ensures s.won ==> WonAt(s, Offset(start))
    ensures !s.won ==> s.agent.vpos == Origin && s.agent.maze.robot == start
  {
    var off := Offset(start);
    s := Start(grid, start);
    StartKeepsInvariant(grid, start);
    while !s.won && !IsEmpty(s.branches)
      invariant s.agent.maze.grid == grid
      invariant s.won ==> WonAt(s, off)
      invariant !s.won ==> Inv(s, off)
      decreases if s.won then 0 else 1, |Unknown(MazeRules, s.agent.vmap, grid, off)|, Weight(s.branches.items)
    {
      ghost var before := Unknown(MazeRules, s.agent.vmap, grid, off);
      StepKeepsInvariant(s, off);
      var next := Step(s);
      ghost var after := Unknown(MazeRules, next.agent.vmap, grid, off);
      if after < before {
        ProperSubsetSmaller(after, before);
      }
      s := next;
    }
  }
}
