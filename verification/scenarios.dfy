/** Concrete runs of the engine that pin down its observable behaviour,
    including the two places where a collision is seen one tick late. */
module Scenarios {
  import opened Grid
  import opened Snake
  import opened Food
  import opened Input
  import opened Engine
  import Setup

  /** Heading right from the start, three ticks move the head to (16,7),
      (17,7) and (18,7), and the length stays 1. */
  lemma ThreeStepsRight()
    ensures var s0 := Setup.Initial().(heading := Some(Right));
            && Tick(s0, []) == Continue(s0.(body := [Pos(16, 7)]))
            && Tick(s0.(body := [Pos(16, 7)]), []) == Continue(s0.(body := [Pos(17, 7)]))
            && Tick(s0.(body := [Pos(17, 7)]), []) == Continue(s0.(body := [Pos(18, 7)]))
  {
  }

  /** Heading right, `left` is ignored and `up` is taken. */
  lemma ReversalRejectedTurnAccepted()
    ensures var s0 := Setup.Initial().(heading := Some(Right));
            && ApplyKey(s0, Key("left", false)) == Continue(s0)
            && ApplyKey(s0, Key("up", false)) == Continue(s0.(heading := Some(Up)))
  {
  }

  /** A snake of five turning down onto its fourth segment: the tick moves
      it there (the overlapping frame is drawn) and only the next tick, which
      tests the new head, ends the game. */
  lemma SelfCollisionSeenNextTick()
    ensures var s := State([Pos(5, 5), Pos(6, 5), Pos(6, 6), Pos(5, 6), Pos(4, 6)], Some(Down), false, Pos(9, 9));
            var t := State([Pos(5, 6), Pos(5, 5), Pos(6, 5), Pos(6, 6), Pos(5, 6)], Some(Down), false, Pos(9, 9));
            && Tick(s, []) == Continue(t)
            && Tick(t, []) == GameOver
  {
    var t := State([Pos(5, 6), Pos(5, 5), Pos(6, 5), Pos(6, 6), Pos(5, 6)], Some(Down), false, Pos(9, 9));
    assert t.body[1..][3] == t.body[0];
  }

  /** A head stepping onto the border column x = W is drawn there; the next
      tick ends the game, exactly as a self collision does. */
  lemma BorderSeenNextTick()
    ensures var s := State([Pos(W - 1, 7)], Some(Right), false, Pos(9, 9));
            && Tick(s, []) == Continue(s.(body := [Pos(W, 7)]))
            && Tick(s.(body := [Pos(W, 7)]), []) == GameOver
  {
  }

  /** The respawned food avoids the body before the move, not the new head:
      the snake can step straight onto the fresh food. */
  lemma FoodCanLandUnderNewHead()
    ensures var s := State([Pos(5, 5)], Some(Right), false, Pos(5, 5));
            var draws := [Draw(4, 3)];
            && AllInRange(draws) && Accepts(s.body, draws)
            && Tick(s, draws) == Continue(State([Pos(6, 5), Pos(5, 5)], Some(Right), false, Pos(6, 5)))
  {
    var draws := [Draw(4, 3)];
    assert Candidate(draws[0]) !in [Pos(5, 5)];
  }
}
