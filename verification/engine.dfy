/** One timer tick of the game: the food test and the two collision tests
    on the current head, then the body update done while rendering. */
module Engine {
  import opened Grid
  import opened Snake
  import opened Food

  /** The scan over `body[i..]` for a segment equal to `head`, as the
      collision loop runs it from index 1. */
  function HitsBody(body: seq<Pos>, head: Pos, i: nat): (hit: bool)
    requires i <= |body|
    ensures hit <==> exists j :: i <= j < |body| && body[j] == head
    decreases |body| - i
  {
    if i == |body| then false
    else if body[i] == head then true
    else HitsBody(body, head, i + 1)
  }

  /** The loop from index 1 searches exactly the body without its head. */
  lemma ScanFromOneIsTail(body: seq<Pos>, head: Pos)
    requires |body| >= 1
    ensures HitsBody(body, head, 1) <==> head in body[1..]
  {
  }

  /** The state-changing part of rendering: consume `addBody` by keeping the
      tail, then, when a heading is set, put the stepped head in front.
      A heading-less snake with growth pending would keep an undefined
      segment (see `RenderAsWritten`); positions cannot hold it, hence the
      second requires. */
  function Render(s: State): (r: State)
    requires |s.body| >= 1
    requires s.heading.None? ==> !s.addBody
    ensures !r.addBody && r.heading == s.heading && r.food == s.food
    ensures |r.body| >= 1
  {
    var grown := s.addBody;
    var s' := s.(addBody := false);
    match s.heading
    case None => s'
    case Some(d) =>
      var newHead := Step(s.body[0], d);
      if grown then s'.(body := [newHead] + s.body)
      else s'.(body := [newHead] + s.body[..|s.body| - 1])
  }

  /** The whole timer callback. Food is tested against the head before the
      move and respawned from `draws`; the self and border tests are on the
      same head; only then does the body move. */
  function Tick(s: State, draws: seq<Draw>): (r: Outcome)
    requires |s.body| >= 1
    requires s.heading.None? ==> !s.addBody && s.body[0] != s.food
    requires AllInRange(draws)
    requires s.body[0] == s.food ==> Accepts(s.body, draws)
    ensures r.GameOver? <==> s.body[0] in s.body[1..] || !Interior(s.body[0])
    ensures r.Continue? ==> r.state.heading == s.heading && !r.state.addBody
    ensures r.Continue? && s.body[0] == s.food ==> Interior(r.state.food) && r.state.food !in s.body
    ensures r.Continue? && s.body[0] != s.food ==> r.state.food == s.food
  {
    var head := s.body[0];
    var fed := if head == s.food then s.(food := Spawn(s.body, draws).value, addBody := true) else s;
    ScanFromOneIsTail(s.body, head);
    if HitsBody(s.body, head, 1) || HitsBorder(head) then GameOver
    else
      Continue(Render(fed))
  }

  /** A single-segment snake never hits itself: only the border ends its game. */
  lemma SingleSegmentNeverSelfCollides(s: State, draws: seq<Draw>)
    requires |s.body| == 1
    requires s.heading.None? ==> !s.addBody && s.body[0] != s.food
    requires AllInRange(draws)
    requires s.body[0] == s.food ==> Accepts(s.body, draws)
    ensures Tick(s, draws).GameOver? <==> HitsBorder(s.body[0])
  {
  }

  /** With a heading set and no food eaten, the snake shifts: the new head is
      one step from the old one and the tail drops, so the length is kept. */
  lemma TickShifts(s: State, draws: seq<Draw>, d: Direction)
    requires Valid(s) && s.heading == Some(d)
    requires AllInRange(draws)
    requires s.body[0] != s.food
    requires Tick(s, draws).Continue?
    ensures Tick(s, draws).state.body == [Step(s.body[0], d)] + s.body[..|s.body| - 1]
    ensures |Tick(s, draws).state.body| == |s.body|
  {
  }

  /** With a heading set and the food under the head, the snake grows on the
      same tick: the new head is put before the whole old body. */
  lemma TickGrows(s: State, draws: seq<Draw>, d: Direction)
    requires Valid(s) && s.heading == Some(d)
    requires AllInRange(draws)
    requires s.body[0] == s.food && Accepts(s.body, draws)
    requires Tick(s, draws).Continue?
    ensures Tick(s, draws).state.body == [Step(s.body[0], d)] + s.body
    ensures |Tick(s, draws).state.body| == |s.body| + 1
    ensures Score(Tick(s, draws).state) == Score(s) + 1
  {
  }

  /** Before the first accepted key the tick changes nothing at all. */
  lemma TickIdle(s: State, draws: seq<Draw>)
    requires Valid(s) && s.heading.None?
    requires AllInRange(draws)
    ensures Tick(s, draws) == Continue(s)
  {
  }

  /** The score moves by one exactly when food is eaten. */
  lemma TickScore(s: State, draws: seq<Draw>)
    requires Valid(s)
    requires AllInRange(draws)
    requires s.body[0] == s.food ==> Accepts(s.body, draws)
    requires Tick(s, draws).Continue?
    ensures Score(Tick(s, draws).state) == Score(s) + (if s.body[0] == s.food then 1 else 0)
  {
  }

  /** Ticks keep the invariant; in particular `addBody` is never left set and
      is never set while the heading is unset. */
  lemma TickPreservesValid(s: State, draws: seq<Draw>)
    requires Valid(s)
    requires AllInRange(draws)
    requires s.body[0] == s.food ==> Accepts(s.body, draws)
    ensures s.heading.None? ==> !s.addBody && s.body[0] != s.food
    ensures Tick(s, draws).Continue? ==> Valid(Tick(s, draws).state)
  {
  }
}
