# Maze robot: a Dafny model of the exploration core

The repository is a robot that looks for the exit of a maze it cannot see. The real
maze (`Maze`) answers one move request at a time with `"true"` (moved), `"false"`
(blocked) or `"win"` (the next cell is the exit). The robot keeps a virtual map of
what it has learnt, with its own position in the middle. It searches depth first
with a stack of branches, and it backtracks by physically walking back.

The repository holds two versions of the search:

- **the engine embedded in `Maze.java`**: a branch is a straight line. A successful
  move only lengthens the branch on top. A blocked move does one of three things: it
  retraces an ended branch cell by cell and pops it, it pops a branch that never
  moved, or it ends the branch and forks two perpendicular branches.
- **the engine of `Robot.java`**: a branch is a single step. A step that gets
  through ends the branch and pushes two perpendicular branches. An ended branch on
  top is undone by one step back and popped.

Modules, one per component of the source:

| module | file | models |
|---|---|---|
| `Stack` | `stack.dfy` | `LinkedListStack`, as the sequence of node payloads with the head first |
| `Geometry` | `geometry.dfy` | directions, `Position`, `getOppositeDirection` |
| `Oracle` | `oracle.dfy` | `Maze.go` over a grid passed in as a parameter |
| `Branches` | `branches.dfy` | class `Branch` and its constructor |
| `VirtualMaps` | `virtual_maps.dfy` | `replaceCellAt`, `virtualCheck`, `virtualGo`, `adapterGo` |
| `Tracking` | `tracking.dfy` | the invariant that the virtual map agrees with the real maze, and the measure of cells still unknown |
| `EmbeddedRobot` | `embedded_robot.dfy` | `navigate` and `backtrack` of the `Robot` class inside `Maze.java` |
| `Robot` | `robot.dfy` | `navigate` and `splitBranch` of `Robot.java` |

Both engines carry their own copy of `virtualCheck`, `virtualGo`, `adapterGo` and
`getOppositeDirection`. The copies differ only in how `virtualCheck` reads a cell,
so `VirtualMaps` defines each operation once, parametrised by `Rules`:

- `MazeRules` (the embedded engine): a path cell is open only under the override,
  and every other character except a wall is open, including the start mark `R`.
- `RobotRules` (`Robot.java`): only a blank cell is open without the override.

Under `MazeRules` the start cell, marked `R`, reads as open. The embedded engine may
therefore walk back onto its own start as if it were unexplored, and then overwrite the
`R` with a path mark. The invariant and the termination proof allow for this:
`Tracking.Visited` counts `R` as visited, and the unknown-cell measure still shrinks
when the start is re-entered.

**How the proofs fit together.** The virtual map and the real grid differ by a fixed
offset: the virtual cell `p` stands for the real cell `Shift(p, off)`. The predicate
`Tracking.Synced` says four things:
- the two robots stand on corresponding cells;
- every wall mark stands for a real wall;
- every visited mark stands for a real open cell that is not the exit;
- the robot stands on a visited cell.

`adapterGo` keeps this invariant (`Tracking.AdapterGoKeepsSync`). Each engine then adds
an invariant about its own stack:
- The embedded engine: each branch starts where the branch below it has got to, and
  the robot stands at the tip of the top branch, that is, its origin plus `steps`
  cells in its direction. So retracing `steps` cells always gets through and ends on
  the branch's origin.
- `Robot.java`: the robot stands at the start moved one cell along each ended branch
  on the stack.

Both `navigate` loops are proved to terminate. The measure is lexicographic:
- whether the exit was found;
- the number of real cells whose virtual cell a check without the override still
  lets the robot into;
- a weight of the stack in the embedded engine, and the size of the stack in
  `Robot.java`.

**Behaviour worth knowing.**
- Neither engine both forks and counts steps on a success. The embedded engine counts
  steps on a success and forks on a block. `Robot.java` forks on a success and keeps
  no step count.
- When the exit is found, the embedded engine marks the final cell `X`. `Robot.java`
  marks it path in `adapterGo` and then `G` after the loop.
- `Maze.go` leaves the real robot where it is when it answers `"win"`, and so does
  `Oracle.Go`.
- `Maze.go` counts a step even for a string that is not a direction, and so does
  `Oracle.Go`.
- Neither search is exhaustive. Stopping on an empty stack does not mean that no exit
  is reachable, and neither `Navigate` contract claims it does.
  - The embedded engine forks only where a line is blocked (src/main/Maze.java:255-259).
    On the grid `.....`, `.   .`, `. X .`, `.   .`, `.....` with the start at row 1,
    column 1, it forks only at the corners of the room and never anchors a branch next to
    the centre. It walks around the room's border, returns to the start, and stops after
    24 requests without reaching the exit.
  - `splitBranch` pushes only perpendicular branches (src/main/Robot.java:132-143), so the
    robot of `Robot.java` never takes two steps in a row in the same direction. On the
    grid `.....`, `.  X.`, `. ...`, `.   .`, `.....` with the start at row 3, column 1,
    it stops with an empty stack after 9 requests. The exit can be reached through
    column 1 and then along row 1.

## Model

| member | source | states |
|---|---|---|
| Stack.Empty | src/main/Maze.java:24-27 | a new stack is empty and `peek` answers null |
| Stack.Size | src/main/Maze.java:29-31 | `size` is 0 exactly for the stack with no node; `Stack.Push` and `Stack.Pop` state that it rises by one per push and falls by one per successful pop |
| Stack.IsEmpty | src/main/Maze.java:33-35 | `isEmpty` holds exactly when no node is left |
| Stack.Push | src/main/Maze.java:37-46 | `push` raises the size by one and makes `peek` return the pushed item |
| Stack.Pop | src/main/Maze.java:48-58 | `pop` reports false and changes nothing on an empty stack, and otherwise succeeds and lowers the size by one |
| Stack.Peek | src/main/Maze.java:60-66 | `peek` answers null exactly when the stack is empty, and otherwise an item of the stack |
| Stack.UpdateTop | src/main/Maze.java:261-263 | writing through the reference `peek` returned changes the top item only: same size, new top, same stack below |
| Stack.PushThenPop | src/main/Maze.java:37-58 | LIFO: a pop straight after a push restores the previous stack, its size and its top |
| Geometry.Inverse | src/main/Robot.java:173-191 | UP and DOWN, and LEFT and RIGHT, are swapped: the answer differs from the argument, keeps its axis, and a step in it undoes a step in the argument |
| Geometry.Opposite | src/main/Maze.java:378-396 | `getOppositeDirection` answers `""` exactly for a string that is not a direction, and otherwise a direction whose step undoes a step in the argument |
| Geometry.OppositeIsInvolution | src/main/Maze.java:378-396 | `getOppositeDirection` is its own inverse, on names and on `""` |
| Geometry.AdvanceStep | src/main/Maze.java:261-263 | walking `n + 1` cells along a line is walking `n` cells and one more, and a step back in the inverse direction undoes the last one |
| Oracle.OpenIsInterior | src/main/Maze.java:119-132 | on a walled-in grid every cell that is neither a wall nor the exit lies off the border, so a robot that `go` moves onto such a cell can take another step |
| Oracle.NeighbourInGrid | src/main/Maze.java:119-132 | on a walled-in grid, the cell next to a robot strictly inside the border is always inside the grid, so `go` never indexes outside it |
| Oracle.Go | src/main/Maze.java:110-148 | every call counts one step and never writes the grid; an invalid direction or a wall answers false and an exit answers win, both without moving the robot; any other cell answers true and the robot moves onto it |
| Branches.New | src/main/Branch.java:10-15 | a new branch has the given position and direction, zero steps, is not ended, and its tip is its origin |
| VirtualMaps.Mark | src/main/Maze.java:354-358 | `replaceCellAt` sets one cell and leaves every other cell as it was |
| VirtualMaps.VirtualCheck | src/main/Maze.java:421-459 | never answers win; an invalid direction or a wall answers false; a blank answers true; a path cell answers true exactly under the override; any other character is open under the embedded engine's rules and needs the override under the rules of `Robot.java` (src/main/Robot.java:216-252) |
| VirtualMaps.OverrideOnlyWidens | src/main/Robot.java:216-252 | whatever `virtualCheck` lets through without the override it also lets through with it |
| VirtualMaps.VirtualGo | src/main/Maze.java:399-418 | the virtual position moves one cell in the direction exactly when `virtualCheck` with the override says true, and stays otherwise |
| VirtualMaps.WallMarkReverts | src/main/Maze.java:365-369 | the wall-marking manoeuvre always returns: after the virtual step into the refused cell and its marking as wall, the step back succeeds and ends where the robot stood |
| VirtualMaps.AdapterGo | src/main/Maze.java:361-376 | returns the real maze's answer; on false the target cell is marked wall and the robot stays; otherwise the robot's new cell is marked path and is the target; no other cell changes |
| VirtualMaps.Try | src/main/Robot.java:86-91 | the real maze is contacted, and a step counted, exactly when the virtual check without the override lets the move through; otherwise the answer is false and nothing changes |
| Tracking.CellsMember | src/main/Maze.java:132 | the set of grid cells holds exactly the positions `go` may index |
| Tracking.UnknownMember | src/main/Robot.java:240-251 | a real cell is still unknown exactly when it lies in the grid and its virtual cell is open without the override |
| Tracking.UnknownLoses | src/main/Robot.java:160-167 | marking a cell that was still unknown, as wall or as path, strictly shrinks the set of unknown cells |
| Tracking.AdapterGoShrinks | src/main/Maze.java:361-376 | whatever the maze answers, `adapterGo` never makes a cell unknown again and never changes the grid |
| Tracking.AdapterGoKeepsSync | src/main/Robot.java:152-171 | `adapterGo` keeps the virtual map faithful to the grid; a refusal leaves both robots in place and only happens at an unvisited cell; any other answer moves the robot one cell; stepping back onto a visited cell always succeeds; win happens exactly when the target is the exit |
| Tracking.TryKeepsSync | src/main/Maze.java:243-246 | a search attempt keeps the map faithful; a refused attempt leaves the robot in place; an attempt that gets through moves it one cell onto a newly marked path cell and strictly shrinks the set of unknown cells |
| EmbeddedRobot.Start | src/main/Maze.java:203-233 | the start is marked `R` in the middle of an otherwise blank virtual map; four branches anchored there are pushed DOWN, LEFT, RIGHT, UP, so UP is on top; no step has been taken |
| EmbeddedRobot.Fork | src/main/Maze.java:255-260 | exactly two fresh branches anchored at the current cell are pushed, perpendicular to the ended branch and opposite to each other; after UP or DOWN, LEFT is on top, and after LEFT or RIGHT, DOWN is (src/main/Maze.java:281-282, 305-306, 329-330) |
| EmbeddedRobot.Backtrack | src/main/Maze.java:347-352 | `backtrack` sends exactly `steps` requests to the real maze and never changes the grid |
| EmbeddedRobot.Step | src/main/Maze.java:240-340 | a move that was not refused adds one to the top branch's steps and pushes nothing, and win is reported exactly on win; a refused move retraces and pops an ended branch at a cost of exactly its steps in extra requests, pops a branch still at its origin, and otherwise ends the branch and forks |
| EmbeddedRobot.BacktrackReturns | src/main/Maze.java:347-352 | retracing a straight line of visited cells brings both robots back to the line's origin and keeps the map faithful |
| EmbeddedRobot.BacktrackShrinks | src/main/Maze.java:349-351 | retracing never makes a cell unknown again |
| EmbeddedRobot.RetraceCase | src/main/Maze.java:248-251 | after retracing, the robot stands at the popped branch's origin, which is where the branch below has got to |
| EmbeddedRobot.StepDropped | src/main/Maze.java:252-254 | a refused branch that has not ended and whose origin is the robot's cell has walked no cell yet; popping it keeps the search invariant and makes progress |
| EmbeddedRobot.StepForked | src/main/Maze.java:255-260 | a refused branch that has not ended and whose origin is not the robot's cell has walked at least one cell; ending it and forking keeps the search invariant and makes progress |
| EmbeddedRobot.ForkLightens | src/main/Maze.java:255-260 | a fork replaces one walked branch by three entries that weigh less in total |
| EmbeddedRobot.StepKeepsInvariant | src/main/Maze.java:235-341 | each iteration keeps the map faithful and the stack a chain of branches ending at the robot; a popped branch leaves the robot at its origin; after a win the robot stands on the virtual image of the exit, marked `X`; each iteration that does not win either shrinks the unknown cells or lightens the stack |
| EmbeddedRobot.StartKeepsInvariant | src/main/Maze.java:225-233 | the seeded state satisfies the search invariant |
| EmbeddedRobot.Navigate | src/main/Maze.java:225-345 | `navigate` always stops; it stops either on a win, with the virtual robot on the image of the exit, or on an empty stack, with both robots back at the start |
| Robot.Start | src/main/Robot.java:35-63 | the start is marked path in the middle of an otherwise blank virtual map; four un-ended branches are pushed LEFT, RIGHT, DOWN, UP, so UP is on top |
| Robot.SplitBranch | src/main/Robot.java:132-143 | exactly two fresh branches are pushed, perpendicular to the direction and opposite to each other; after UP or DOWN, RIGHT is on top, and after LEFT or RIGHT, UP is |
| Robot.Step | src/main/Robot.java:69-103 | an ended top branch costs exactly one request, in the opposite direction, and is popped; a refused attempt pops the branch; an attempt that got through ends it and pushes two perpendicular branches, and win is reported exactly on win |
| Robot.Finish | src/main/Robot.java:114-118 | after the loop the start is marked `R` and, after a win, the robot's cell is marked `G`; nothing else changes |
| Robot.TrailSplit | src/main/Robot.java:97-102 | ending the top branch and splitting moves the end of the trail one cell along the branch, and the trail stays visited |
| Robot.StepUndone | src/main/Robot.java:78-83 | popping an ended branch moves the robot one cell back against its direction and keeps the invariant |
| Robot.StepRefused | src/main/Robot.java:93-96 | popping a refused branch leaves the robot in place and keeps the invariant |
| Robot.StepSplit | src/main/Robot.java:97-102 | an attempt that got through moves the robot one cell along the branch and keeps the invariant |
| Robot.StepKeepsInvariant | src/main/Robot.java:69-103 | each iteration keeps the map faithful and the robot at the start moved along every ended branch; after a win the robot stands on the virtual image of the exit; each iteration that does not win either shrinks the unknown cells or pops a branch |
| Robot.StartKeepsInvariant | src/main/Robot.java:45-63 | the seeded state satisfies the search invariant |
| Robot.Navigate | src/main/Robot.java:54-130 | `navigate` always stops, on a win or on an empty stack; the start ends up marked `R`; after a win the robot's cell is marked `G` and is the virtual image of the exit; without a win both robots are back at the start |

## Left out

- Loading the grid from `./resources/maze.txt` and the hard-coded start (src/main/Maze.java:77-108) are left out: the grid and the start are parameters.
- The grid's shape is a precondition (`Oracle.WalledIn`): all rows as wide as the first, and a wall or the exit on every border cell. An exit in the outer wall is allowed, because `go` answers `"win"` without moving onto it. `go` never checks bounds. In the embedded engine, an open border cell lets the robot step onto the border, and its next request in the same direction indexes outside the grid.
- Console output (src/main/Maze.java:135, 242, 342-344), the timing in `Robot.java` (lines 55 and 108-112) and the file written at the end (src/main/Robot.java:120-129) are I/O, so they are left out.
- `Maze.main` is an entry point and is left out.
- The 1997 by 1997 array behind the virtual map is not modelled. The map is unbounded, keyed by position, and a cell never written reads as blank. The source would throw once the robot wanders more than 998 cells from the start.
- The `int` counters (`steps` of the maze and of a branch) are unbounded naturals; Java's 32-bit wrap-around is not modelled.
- Both files define classes named `Robot` and `Branch`, and `Robot.java` uses a `Branch` API that `Branch.java` does not provide (`Branch(String)`, `getDirection`, `isEnd`, `setEnd`). These are build problems, not behaviour. `Robot.java`'s branch is modelled as a direction with an end flag, following how it is used.
- Directions and answers are strings in the source. They are enumerations here (`Direction`, `Signal`), and the invalid-direction path is kept as `Token.Invalid` wherever the source handles it.
- EmbeddedRobot.Navigate: requires the start cell to be open and not the exit. The source starts the robot there without checking. With the exit under the robot, the invariant that a visited cell is not the exit fails at the start.
- Robot.Navigate: requires the start cell to be open and not the exit, for the same reason.
- Robot.Navigate: `Oracle.WalledIn` also rules out grids with an open border cell that `Robot.java` handles without error. That robot turns after every step (src/main/Robot.java:97-102, 132-143). After it steps straight out onto a border cell, its next requests run along the border and stay inside the grid. On `. ...`, `.   .`, `.   .`, `.   .`, `.....` with the start at row 2, column 2, it steps up onto row 0, is refused to the right and to the left, and steps back. Such grids are still left out, because a second open border cell next to the first can lead its next request outside the grid.
- VirtualMaps.AdapterGo: "on false the robot stays" is stated only when the robot's own virtual cell is not marked wall. "Otherwise the new cell is the target" is stated only when the target is not marked wall. Both conditions always hold under the search invariant, and `Tracking.AdapterGoKeepsSync` states both unconditionally there.
- EmbeddedRobot.Step: in the retrace case the contract gives the number of requests and the popped stack. Where the robot ends up is proved separately, under the invariant, by `EmbeddedRobot.StepKeepsInvariant`.
