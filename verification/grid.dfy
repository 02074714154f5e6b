/** Grid geometry of the snake game: the fixed playfield size, positions,
    the four directions and the border ring that ends the game. */
module Grid {

  /** Width of the playfield, in terminal cells. */
  const W: int := 30

  /** Height is half the width, rounded down (Dafny's `/` floors for a
      positive divisor, as `Math.floor(W / 2)` does). */
  const H: int := W / 2

  /** A 1-based grid coordinate. */
  datatype Pos = Pos(x: int, y: int)

  datatype Direction = Right | Left | Up | Down

  /** The direction that would turn the snake straight back into itself. */
  function Opposite(d: Direction): (o: Direction)
    ensures o != d
  {
    match d
    case Right => Left
    case Left => Right
    case Up => Down
    case Down => Up
  }

  /** One cell in direction `d`; the y axis grows downwards, as on a terminal. */
  function Step(p: Pos, d: Direction): (q: Pos)
  {
    match d
    case Right => Pos(p.x + 1, p.y)
    case Left => Pos(p.x - 1, p.y)
    case Up => Pos(p.x, p.y - 1)
    case Down => Pos(p.x, p.y + 1)
  }

  /** A step always moves to a 4-neighbour, and stepping back the opposite
      way undoes it. */
  lemma StepIsUnitMove(p: Pos, d: Direction)
    ensures Step(p, d) != p
    ensures (Step(p, d).x - p.x) * (Step(p, d).x - p.x) + (Step(p, d).y - p.y) * (Step(p, d).y - p.y) == 1
    ensures Step(Step(p, d), Opposite(d)) == p
    ensures Opposite(Opposite(d)) == d
  {
  }

  /** The head test of the game loop: touching or crossing the border ring. */
  predicate HitsBorder(p: Pos)
  {
    p.x <= 1 || p.x >= W || p.y <= 1 || p.y >= H
  }

  /** The open rectangle strictly inside the border ring. */
  predicate Interior(p: Pos)
  {
    1 < p.x < W && 1 < p.y < H
  }

  /** Every cell of the closed playfield rectangle, border included. */
  predicate OnField(p: Pos)
  {
    1 <= p.x <= W && 1 <= p.y <= H
  }

  /** The border test is exactly the complement of the interior. */
  lemma HitsBorderIffNotInterior(p: Pos)
    ensures HitsBorder(p) <==> !Interior(p)
  {
  }
}
