/** Game start: the four border lists used for drawing, the first snake
    segment and the initial state. */
module Setup {
  import opened Grid
  import opened Snake

  /** The border cells per side, in the order they are appended. */
  datatype Borders = Borders(top: seq<Pos>, right: seq<Pos>, bottom: seq<Pos>, left: seq<Pos>)

  const NoBorders: Borders := Borders([], [], [], [])

  /** One horizontal side: `(i, y)` for `i` from 1 to W. */
  function Row(y: int): seq<Pos>
  {
    seq(W, i => Pos(i + 1, y))
  }

  /** One vertical side: `(x, i)` for `i` from 1 to H. */
  function Column(x: int): seq<Pos>
  {
    seq(H, i => Pos(x, i + 1))
  }

  /** What one initialisation appends to the lists it is given. */
  function AppendBorders(b: Borders): Borders
  {
    Borders(b.top + Row(1), b.right + Column(W), b.bottom + Row(H), b.left + Column(1))
  }

  /** The initialisation routine as written: two counting loops that push
      onto the existing lists, then one push of the centre cell onto the body. */
  method InitializeGameStates(b: Borders, body: seq<Pos>) returns (b': Borders, body': seq<Pos>)
    ensures b' == AppendBorders(b)
    ensures |b'.top| == |b.top| + W && |b'.bottom| == |b.bottom| + W
    ensures |b'.left| == |b.left| + H && |b'.right| == |b.right| + H
    ensures body' == body + [Start]
  {
    b' := b;
    var i := 1;
    while i <= W
      invariant 1 <= i <= W + 1
      invariant b'.top == b.top + Row(1)[..i - 1]
      invariant b'.bottom == b.bottom + Row(H)[..i - 1]
      invariant b'.left == b.left && b'.right == b.right
    {
      assert Row(1)[..i] == Row(1)[..i - 1] + [Pos(i, 1)];
      assert Row(H)[..i] == Row(H)[..i - 1] + [Pos(i, H)];
      b' := b'.(top := b'.top + [Pos(i, 1)], bottom := b'.bottom + [Pos(i, H)]);
      i := i + 1;
    }
    assert Row(1)[..W] == Row(1) && Row(H)[..W] == Row(H);
    i := 1;
    while i <= H
      invariant 1 <= i <= H + 1
      invariant b'.left == b.left + Column(1)[..i - 1]
      invariant b'.right == b.right + Column(W)[..i - 1]
      invariant b'.top == b.top + Row(1) && b'.bottom == b.bottom + Row(H)
    {
      assert Column(1)[..i] == Column(1)[..i - 1] + [Pos(1, i)];
      assert Column(W)[..i] == Column(W)[..i - 1] + [Pos(W, i)];
      b' := b'.(left := b'.left + [Pos(1, i)], right := b'.right + [Pos(W, i)]);
      i := i + 1;
    }
    assert Column(1)[..H] == Column(1) && Column(W)[..H] == Column(W);
    body' := body + [Pos(W / 2, H / 2)];
  }

  /** True when `p` is on one of the four lists. */
  predicate OnBorderList(b: Borders, p: Pos)
  {
    p in b.top || p in b.right || p in b.bottom || p in b.left
  }

  /** Starting from empty lists, the border lists hold exactly the ring of the
      playfield: the cells of the closed rectangle that are not interior. */
  lemma BordersAreTheRing(p: Pos)
    ensures OnBorderList(AppendBorders(NoBorders), p) <==> OnField(p) && !Interior(p)
  {
    var b := AppendBorders(NoBorders);
    if OnBorderList(b, p) {
      if p in b.top {
        var i :| 0 <= i < W && Row(1)[i] == p;
      } else if p in b.bottom {
        var i :| 0 <= i < W && Row(H)[i] == p;
      } else if p in b.left {
        var i :| 0 <= i < H && Column(1)[i] == p;
      } else {
        var i :| 0 <= i < H && Column(W)[i] == p;
      }
    }
    if OnField(p) && !Interior(p) {
      if p.y == 1 {
        assert b.top[p.x - 1] == p;
      } else if p.y == H {
        assert b.bottom[p.x - 1] == p;
      } else if p.x == 1 {
        assert b.left[p.y - 1] == p;
      } else {
        assert b.right[p.y - 1] == p;
      }
    }
  }

  /** The lists are appended to, not rebuilt: a second initialisation
      doubles them, so initialisation is not idempotent. */
  lemma InitializationAppends()
    ensures |AppendBorders(AppendBorders(NoBorders)).top| == 2 * W
    ensures AppendBorders(AppendBorders(NoBorders)) != AppendBorders(NoBorders)
  {
  }

  /** The state the game starts in: the single centre segment, no heading,
      no growth pending and the hard-coded first food. */
  function Initial(): (s: State)
    ensures Valid(s)
    ensures s.body == [Pos(15, 7)] && s.heading.None?
    ensures Score(s) == 0
  {
    State([Start], None, false, InitialFood)
  }
}
