/** The event loop: key presses and timer fires arrive in any order, one at
    a time, and each is applied to the current state. */
module Game {
  import opened Snake
  import opened Food
  import opened Input
  import Engine
  import Setup

  /** A key press, or a timer fire carrying the random draws its food
      respawn would consume. */
  datatype Event = Press(key: Key) | Fire(draws: seq<Draw>)

  /** The draws of a timer fire are in range and, when the head is on the
      food, contain a free cell, so the sampling loop stops within them. */
  predicate Enabled(s: State, e: Event)
    requires Valid(s)
  {
    e.Fire? ==> AllInRange(e.draws) && (s.body[0] == s.food ==> Accepts(s.body, e.draws))
  }

  function Apply(s: State, e: Event): (r: Outcome)
    requires Valid(s) && Enabled(s, e)
    ensures r.Continue? ==> Valid(r.state)
  {
    match e
    case Press(k) =>
      ApplyKeyPreservesValid(s, k);
      ApplyKey(s, k)
    case Fire(draws) =>
      Engine.TickPreservesValid(s, draws);
      Engine.Tick(s, draws)
  }

  /** No event removes a segment. */
  lemma EventNeverShrinks(s: State, e: Event)
    requires Valid(s) && Enabled(s, e)
    requires Apply(s, e).Continue?
    ensures |Apply(s, e).state.body| >= |s.body|
  {
  }

  /** Applies the events in order until the game ends. `None` when a timer
      fire is given out-of-range draws, or too few for its food respawn. */
  function Run(s: State, es: seq<Event>): (r: Option<Outcome>)
    requires Valid(s)
    ensures r.Some? && r.value.Continue? ==> Valid(r.value.state)
    ensures r.Some? && r.value.Continue? ==> |r.value.state.body| >= |s.body|
    decreases |es|
  {
    if |es| == 0 then Some(Continue(s))
    else if !Enabled(s, es[0]) then None
    else
      match Apply(s, es[0])
      case GameOver => Some(GameOver)
      case Continue(t) =>
        EventNeverShrinks(s, es[0]);
        Run(t, es[1..])
  }

  /** In every state reached from the start, an unset heading means nothing
      has happened yet: in particular growth is never pending while the
      heading is unset, and the body never becomes empty. */
  lemma {:induction false} UnsetHeadingMeansStart(es: seq<Event>)
    requires Run(Setup.Initial(), es).Some? && Run(Setup.Initial(), es).value.Continue?
    ensures |Run(Setup.Initial(), es).value.state.body| >= 1
    ensures Run(Setup.Initial(), es).value.state.heading.None? ==> Run(Setup.Initial(), es).value.state == Setup.Initial()
  {
  }
}
