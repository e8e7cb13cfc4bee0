/**
 A branch of the straight-line search (class `Branch`): a direction tried
 from an origin, the number of cells walked along it so far, and whether it
 has already forked and now only waits to be retraced.
 */
module Branches {
  import opened Geometry

  datatype Branch = Branch(direction: Direction, pos: Pos, steps: nat, end: bool)

  /** The constructor `Branch(pos, direction)`: nothing walked yet, not ended. */
  function New(pos: Pos, direction: Direction): (b: Branch)
    ensures b.pos == pos && b.direction == direction
    ensures b.steps == 0 && !b.end
    ensures Tip(b) == pos
  {
    Branch(direction, pos, 0, false)
  }

  /** Where a robot that followed the branch from its origin stands now. */
  function Tip(b: Branch): Pos
  {
    Advance(b.pos, b.direction, b.steps)
  }

  /** Only a branch that has walked nowhere has its tip at its origin. */
  lemma TipIsOriginOnlyWhenUnwalked(b: Branch)
    ensures Tip(b) == b.pos <==> b.steps == 0
  {
  }
}
