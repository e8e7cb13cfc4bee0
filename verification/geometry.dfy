/**
 Directions and grid coordinates shared by the oracle and the virtual map.
 Rows grow downwards and columns grow to the right, as in the source's
 `String[]` grids.
 */
module Geometry {

  datatype Direction = Up | Down | Left | Right

  /**
   A direction as the source passes it around: a string that is one of the
   four names, or anything else (the empty string `getOppositeDirection`
   answers for an unknown name, say).
   */
  datatype Token = Named(dir: Direction) | Invalid

  datatype Pos = Pos(row: int, col: int)

  /** The cell one step away from `p` in direction `d`. */
  function Neighbour(p: Pos, d: Direction): Pos
  {
    match d
    case Up => Pos(p.row - 1, p.col)
    case Down => Pos(p.row + 1, p.col)
    case Left => Pos(p.row, p.col - 1)
    case Right => Pos(p.row, p.col + 1)
  }

  /** The cell `n` steps away from `p` along a straight line in direction `d`. */
  function Advance(p: Pos, d: Direction, n: nat): Pos
  {
    match d
    case Up => Pos(p.row - n, p.col)
    case Down => Pos(p.row + n, p.col)
    case Left => Pos(p.row, p.col - n)
    case Right => Pos(p.row, p.col + n)
  }

  /** UP and DOWN are each other's inverse, and so are LEFT and RIGHT. */
  function Inverse(d: Direction): (r: Direction)
    ensures r != d
    ensures Vertical(r) == Vertical(d)
    ensures forall p :: Neighbour(Neighbour(p, d), r) == p
  {
    match d
    case Up => Down
    case Down => Up
    case Left => Right
    case Right => Left
  }

  /** `getOppositeDirection`: a step in the answer undoes a step in the argument; anything that is not a direction name gives `""`. */
  function Opposite(t: Token): (r: Token)
    ensures t.Invalid? <==> r.Invalid?
    ensures t.Named? ==> r.dir != t.dir && forall p :: Neighbour(Neighbour(p, t.dir), r.dir) == p
  {
    match t
    case Named(d) => Named(Inverse(d))
    case Invalid => Invalid
  }

  lemma OppositeIsInvolution(t: Token)
    ensures Opposite(Opposite(t)) == t
  {
  }

  predicate Vertical(d: Direction)
  {
    d == Up || d == Down
  }

  predicate Perpendicular(a: Direction, b: Direction)
  {
    Vertical(a) != Vertical(b)
  }

  /** Translation by the vector `off`, used to relate virtual and real coordinates. */
  function Shift(p: Pos, off: Pos): Pos
  {
    Pos(p.row + off.row, p.col + off.col)
  }

  lemma AdvanceStep(p: Pos, d: Direction, n: nat)
    ensures Advance(p, d, 0) == p
    ensures Advance(p, d, n + 1) == Neighbour(Advance(p, d, n), d)
    ensures Neighbour(Advance(p, d, n + 1), Inverse(d)) == Advance(p, d, n)
  {
  }

  lemma ShiftNeighbour(p: Pos, d: Direction, off: Pos)
    ensures Shift(Neighbour(p, d), off) == Neighbour(Shift(p, off), d)
  {
  }
}
