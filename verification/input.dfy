/** The keypress handler: alias lists for the four directions, the
    terminate keys, and the reversal guard against the stored heading. */
module Input {
  import opened Grid
  import opened Snake

  /** A key event as delivered by the terminal: its name and whether ctrl
      was held. */
  datatype Key = Key(name: string, ctrl: bool)

  const RightKeys: seq<string> := ["right", "d", "l"]
  const LeftKeys: seq<string> := ["left", "a", "h"]
  const UpKeys: seq<string> := ["up", "w", "k"]
  const DownKeys: seq<string> := ["down", "s", "j"]

  /** The alias list of one direction. */
  function Aliases(d: Direction): seq<string>
  {
    match d
    case Right => RightKeys
    case Left => LeftKeys
    case Up => UpKeys
    case Down => DownKeys
  }

  /** Escape, or ctrl held with `c`, ends the game. */
  predicate IsTerminate(k: Key)
  {
    k.name == "escape" || (k.ctrl && k.name == "c")
  }

  /** No key name is an alias of two different directions. */
  lemma AliasesDisjoint(n: string, d: Direction, e: Direction)
    requires n in Aliases(d) && n in Aliases(e)
    ensures d == e
  {
  }

  /** The terminate keys are not direction aliases (`c` with ctrl only
      differs from `c` without it, which is not an alias either). */
  lemma TerminateIsNoAlias(k: Key, d: Direction)
    requires IsTerminate(k)
    ensures k.name !in Aliases(d)
  {
  }

  /** One `if` of the handler: when the key is an alias of `d`, take `d`
      unless the stored heading is its opposite. */
  function Steer(h: Option<Direction>, pressed: bool, d: Direction): Option<Direction>
  {
    if pressed && h != Some(Opposite(d)) then Some(d) else h
  }

  /** The handler as written: the terminate test, then four independent
      `if`s in the order right, left, up, down, each guarded against the
      heading stored at that point. */
  function ApplyKey(s: State, k: Key): (r: Outcome)
    ensures r.GameOver? <==> IsTerminate(k)
    ensures r.Continue? ==> r.state.body == s.body && r.state.addBody == s.addBody && r.state.food == s.food
    ensures r.Continue? && s.heading.Some? ==> r.state.heading.Some?
  {
    if IsTerminate(k) then GameOver
    else
      var h1 := Steer(s.heading, k.name in RightKeys, Right);
      var h2 := Steer(h1, k.name in LeftKeys, Left);
      var h3 := Steer(h2, k.name in UpKeys, Up);
      var h4 := Steer(h3, k.name in DownKeys, Down);
      Continue(s.(heading := h4))
  }

  /** The direction a key name asks for, if any. */
  function Requested(n: string): (r: Option<Direction>)
    ensures r.Some? ==> n in Aliases(r.value)
    ensures r.None? ==> forall d: Direction :: n !in Aliases(d)
  {
    if n in RightKeys then Some(Right)
    else if n in LeftKeys then Some(Left)
    else if n in UpKeys then Some(Up)
    else if n in DownKeys then Some(Down)
    else None
  }

  /** The single reversal guard, stated once. */
  function Guarded(h: Option<Direction>, d: Direction): Option<Direction>
  {
    if h == Some(Opposite(d)) then h else Some(d)
  }

  /** The four sequential `if`s behave as one lookup followed by one guard:
      at most one branch fires for any key. */
  lemma ApplyKeyIsOneLookup(s: State, k: Key)
    ensures ApplyKey(s, k) ==
      if IsTerminate(k) then GameOver
      else match Requested(k.name)
        case None => Continue(s)
        case Some(d) => Continue(s.(heading := Guarded(s.heading, d)))
  {
  }

  /** A key never sets the heading to the exact opposite of the heading held
      just before that key event. */
  lemma KeyNeverReverses(s: State, k: Key, d: Direction)
    requires s.heading == Some(d)
    requires ApplyKey(s, k).Continue?
    ensures ApplyKey(s, k).state.heading != Some(Opposite(d))
  {
  }

  /** A direction key is taken exactly when it is not the reversal: a turn,
      the same direction, or any direction while no heading is set. */
  lemma KeyAcceptance(s: State, k: Key, d: Direction)
    requires k.name in Aliases(d)
    ensures ApplyKey(s, k).Continue?
    ensures ApplyKey(s, k).state.heading == Some(d) <==> s.heading != Some(Opposite(d))
    ensures s.heading == Some(Opposite(d)) ==> ApplyKey(s, k) == Continue(s)
  {
  }

  /** Any key that is neither a terminate key nor an alias changes nothing. */
  lemma OtherKeysIgnored(s: State, k: Key)
    requires !IsTerminate(k)
    requires forall d: Direction :: k.name !in Aliases(d)
    ensures ApplyKey(s, k) == Continue(s)
  {
    ApplyKeyIsOneLookup(s, k);
  }

  /** The guard looks at the stored heading, not at the last move: two quick
      keys between ticks can turn a snake heading right to face left. */
  lemma TwoTurnsReverse(s: State)
    requires s.heading == Some(Right)
    ensures ApplyKey(ApplyKey(s, Key("up", false)).state, Key("left", false)).state.heading == Some(Left)
  {
  }

  /** Key events keep the invariant. */
  lemma ApplyKeyPreservesValid(s: State, k: Key)
    requires Valid(s)
    ensures ApplyKey(s, k).Continue? ==> Valid(ApplyKey(s, k).state)
  {
  }
}
