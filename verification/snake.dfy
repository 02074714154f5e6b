/** The game state held by the engine: the snake's body, its heading, the
    pending-growth flag and the food cell, plus the invariant every state
    reachable between two events satisfies. */
module Snake {
  import opened Grid

  datatype Option<T> = None | Some(value: T)

  /** `heading` is `None` while the stored direction is the empty string,
      i.e. before the first accepted direction key. The head is `body[0]`. */
  datatype State = State(body: seq<Pos>, heading: Option<Direction>, addBody: bool, food: Pos)

  /** What an event does to the game: `GameOver` stands for the process exit. */
  datatype Outcome = GameOver | Continue(state: State)

  /** The snake's first segment: the centre of the grid, rounded down. */
  const Start: Pos := Pos(W / 2, H / 2)

  /** The food cell the game starts with; it is not drawn by the spawner. */
  const InitialFood: Pos := Pos(9, 9)

  /** The value shown in the info panel. A tick prints it before the body is
      updated, so a food tick still shows the old score and the raised score
      first appears in the next tick's panel. */
  function Score(s: State): int
  {
    |s.body| - 1
  }

  /** Invariant of every state seen between two events.
      - the body is never empty;
      - growth is requested and consumed inside one tick, so `addBody` is
        false between events;
      - the food is always on an interior cell;
      - while no direction has been accepted the snake has not moved and the
        food is still the initial one. */
  predicate Valid(s: State)
  {
    && |s.body| >= 1
    && !s.addBody
    && Interior(s.food)
    && (s.heading.None? ==> s.body == [Start] && s.food == InitialFood)
  }

  /** The snake never starts on the initial food and never starts on the border. */
  lemma StartFacts()
    ensures Start == Pos(15, 7)
    ensures Start != InitialFood
    ensures Interior(Start) && Interior(InitialFood)
  {
  }
}
