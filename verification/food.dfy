/** Food placement: random interior cells are drawn until one is not on the
    snake. The randomness is supplied from outside as a sequence of draws. */
module Food {
  import opened Grid
  import opened Snake

  /** The two values `floor(random * (W - 2))` and `floor(random * (H - 2))`
      of one sampling round. */
  datatype Draw = Draw(i: int, j: int)

  /** The range `Math.random` confines a draw to. */
  predicate InRange(d: Draw)
  {
    0 <= d.i < W - 2 && 0 <= d.j < H - 2
  }

  predicate AllInRange(draws: seq<Draw>)
  {
    forall k :: 0 <= k < |draws| ==> InRange(draws[k])
  }

  /** The cell a draw proposes: both values shifted by 2. */
  function Candidate(d: Draw): Pos
  {
    Pos(d.i + 2, d.j + 2)
  }

  /** The sampler proposes exactly the interior cells: every in-range draw is
      interior, and every interior cell is proposed by some in-range draw. */
  lemma CandidatesAreInterior(d: Draw, p: Pos)
    ensures InRange(d) ==> Interior(Candidate(d))
    ensures Interior(p) ==> InRange(Draw(p.x - 2, p.y - 2)) && Candidate(Draw(p.x - 2, p.y - 2)) == p
  {
  }

  /** Some draw of the sequence lands off the snake, so the sampling loop
      stops within these draws. */
  predicate Accepts(body: seq<Pos>, draws: seq<Draw>)
  {
    exists k :: 0 <= k < |draws| && Candidate(draws[k]) !in body
  }

  /** The sampling loop: the first candidate not on the body, or `None` when
      every supplied draw is rejected. */
  function Spawn(body: seq<Pos>, draws: seq<Draw>): (r: Option<Pos>)
    requires AllInRange(draws)
    ensures r.Some? <==> Accepts(body, draws)
    ensures r.Some? ==> Interior(r.value) && r.value !in body
    ensures r.Some? ==> exists k :: 0 <= k < |draws| && r.value == Candidate(draws[k])
                          && forall m :: 0 <= m < k ==> Candidate(draws[m]) in body
  {
    if |draws| == 0 then None
    else if Candidate(draws[0]) !in body then
      CandidatesAreInterior(draws[0], Candidate(draws[0]));
      Some(Candidate(draws[0]))
    else
      var r := Spawn(body, draws[1..]);
      assert Accepts(body, draws[1..]) ==> Accepts(body, draws) by {
        if Accepts(body, draws[1..]) {
          var k :| 0 <= k < |draws[1..]| && Candidate(draws[1..][k]) !in body;
          assert Candidate(draws[k + 1]) !in body;
        }
      }
      assert Accepts(body, draws) ==> Accepts(body, draws[1..]) by {
        if Accepts(body, draws) {
          var k :| 0 <= k < |draws| && Candidate(draws[k]) !in body;
          assert k != 0;
          assert Candidate(draws[1..][k - 1]) !in body;
        }
      }
      if r.Some? then
        var k :| 0 <= k < |draws[1..]| && r.value == Candidate(draws[1..][k])
                 && forall m :: 0 <= m < k ==> Candidate(draws[1..][m]) in body;
        assert forall m :: 0 <= m < k + 1 ==> Candidate(draws[m]) in body by {
          forall m | 0 <= m < k + 1
            ensures Candidate(draws[m]) in body
          {
            if m > 0 {
              assert Candidate(draws[1..][m - 1]) in body;
            }
          }
        }
        assert r.value == Candidate(draws[k + 1]);
        r
      else
        r
  }

  /** The sampling loop as written: draw a candidate, scan the body for it,
      stop at the first candidate the scan does not find. */
  method GenerateFood(body: seq<Pos>, draws: seq<Draw>) returns (found: bool, food: Pos)
    requires AllInRange(draws)
    ensures found <==> Accepts(body, draws)
    ensures found ==> Interior(food) && food !in body
    ensures found ==> food == Spawn(body, draws).value
  {
    var n := 0;
    while n < |draws|
      invariant 0 <= n <= |draws|
      invariant forall m :: 0 <= m < n ==> Candidate(draws[m]) in body
      invariant Spawn(body, draws) == Spawn(body, draws[n..])
    {
      food := Candidate(draws[n]);
      var collision := false;
      var k := 0;
      while k < |body|
        invariant 0 <= k <= |body|
        invariant forall m :: 0 <= m < k ==> body[m] != food
      {
        if body[k] == food {
          collision := true;
          break;
        }
        k := k + 1;
      }
      if !collision {
        assert draws[n..][0] == draws[n];
        CandidatesAreInterior(draws[n], food);
        return true, food;
      }
      assert draws[n..][1..] == draws[n + 1..];
      n := n + 1;
    }
    found, food := false, Pos(0, 0);
  }
}
