/** The body update of rendering as it is written, on segments that may be
    undefined: growth pushes a copy of the last segment read through `.x` and
    `.y`, which segments (coordinate pairs) do not have, so the pushed segment
    is undefined; the later `pop` removes it again whenever the snake moves. */
module Growth {
  import opened Grid
  import opened Snake
  import Engine

  /** A body segment: a cell, or the undefined pair pushed for growth. */
  datatype Seg = Cell(p: Pos) | Hole

  function Lift(body: seq<Pos>): seq<Seg>
  {
    seq(|body|, i requires 0 <= i < |body| => Cell(body[i]))
  }

  /** Push, then `unshift` the stepped head and `pop`, literally. The head is
      read before the push. */
  function RenderSegs(segs: seq<Seg>, heading: Option<Direction>, addBody: bool): (r: seq<Seg>)
    requires |segs| >= 1 && segs[0].Cell?
    ensures |r| == |segs| + (if addBody then 1 else 0)
  {
    var snakeHead := segs[0].p;
    var pushed := if addBody then segs + [Hole] else segs;
    match heading
    case None => pushed
    case Some(d) =>
      var unshifted := [Cell(Step(snakeHead, d))] + pushed;
      unshifted[..|unshifted| - 1]
  }

  /** Whenever the engine's render applies, the literal push/unshift/pop
      leaves no undefined segment and gives exactly the engine's body: the
      new head followed by the whole old body when growing, by the old body
      without its tail otherwise. */
  lemma RenderAsWritten(s: State)
    requires |s.body| >= 1
    requires s.heading.None? ==> !s.addBody
    ensures RenderSegs(Lift(s.body), s.heading, s.addBody) == Lift(Engine.Render(s).body)
    ensures s.heading.Some? && s.addBody ==> Engine.Render(s).body == [Step(s.body[0], s.heading.value)] + s.body
    ensures s.heading.Some? && !s.addBody ==> Engine.Render(s).body == [Step(s.body[0], s.heading.value)] + s.body[..|s.body| - 1]
    ensures s.heading.None? ==> Engine.Render(s).body == s.body
  {
  }

  /** Growth with no heading set keeps the undefined segment at the tail. The
      engine never reaches this case: see `Engine.TickPreservesValid`. */
  lemma HoleKeptWithoutHeading(body: seq<Pos>)
    requires |body| >= 1
    ensures RenderSegs(Lift(body), None, true) == Lift(body) + [Hole]
    ensures RenderSegs(Lift(body), None, true)[|body|] == Hole
  {
  }
}
