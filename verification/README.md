# Snake game engine, modelled in Dafny

This project models the engine of a terminal snake game (`index.mjs`). It is a
pure state machine over one immutable record:

- the snake's body, a sequence of 1-based grid positions with the head first;
- the heading, which is unset until the first accepted direction key;
- the `addBody` growth flag;
- the food cell.

The grid is fixed at W = 30 by H = 15.

The engine reacts to two kinds of event, in any interleaving:

- **Key press** (`Input.ApplyKey`). Escape, or ctrl+c, ends the game. Otherwise
  four alias lists (`right/d/l`, `left/a/h`, `up/w/k`, `down/s/j`) are tested
  in turn. A direction is taken unless it is the exact opposite of the heading
  stored at that moment.
- **Timer tick** (`Engine.Tick`). First the current head is tested against the
  food. On a hit the food is respawned and growth is requested. The same head
  is then tested against the rest of the body and against the border ring;
  either hit ends the game. Otherwise the body is updated while rendering. If a
  heading is set, the new head is put in front and the tail is dropped, unless
  growth was requested, in which case the whole old body is kept.

A tick's result is `GameOver | Continue(state)`. The process exit becomes the
terminal `GameOver`.

Food placement (`Food.Spawn`, `Food.GenerateFood`) takes the random numbers as
a sequence of draws. Each draw is the pair `floor(random·28)`, `floor(random·13)`.
The first draw whose cell (shifted by 2) is off the body is taken.

`Game.Run` applies any sequence of events from the initial state.
`Snake.Valid` is the invariant every state between events satisfies:

- the body is non-empty;
- `addBody` is false;
- the food is interior;
- an unset heading means the snake is still at its start.

Modules: `Grid` (geometry), `Snake` (state), `Input` (key handler), `Food`
(spawner), `Engine` (tick), `Growth` (the growth code as written, with its
undefined segment), `Setup` (border lists and initial state), `Game` (event
runs), `Scenarios` (concrete runs).

Behaviour of `index.mjs` worth knowing:

- Collisions are tested on the head *before* the move. A move onto the body or
  onto the border is therefore drawn first, and the game ends on the next tick
  (`Scenarios.SelfCollisionSeenNextTick`, `Scenarios.BorderSeenNextTick`).
- The body may hold a repeated position for that one tick, so "no duplicate
  segments while alive" is not an invariant of the code.
- Growth happens on the same tick as the food is hit.
- The respawned food avoids the body before the move. The new head can land on
  it (`Scenarios.FoodCanLandUnderNewHead`).
- The border lists are appended to, so initialisation is not idempotent
  (`Setup.InitializationAppends`).
- There is one 200 ms timer, driving every tick.
- The reversal guard reads the stored heading, not the last move. Two quick keys
  between ticks can turn the snake straight round (`Input.TwoTurnsReverse`). Only
  the single-event guard is proved (`Input.KeyNeverReverses`).

## Model

| member | source | states |
|---|---|---|
| Grid.StepIsUnitMove | index.mjs:137-150 | each heading moves the head one cell (right x+1, left x−1, up y−1, down y+1), and the opposite step undoes it |
| Grid.HitsBorderIffNotInterior | index.mjs:111 | the game-over border test holds exactly off the open rectangle 1 < x < W, 1 < y < H |
| Snake.StartFacts | index.mjs:182-184 | the snake starts at (W/2, H/2) = (15,7), an interior cell that differs from the first food (9,9) |
| Input.ApplyKey | index.mjs:61-89 | a key ends the game exactly when it is escape or ctrl+c; otherwise only the heading can change, and a set heading is never unset |
| Input.AliasesDisjoint | index.mjs:25-28 | no key name belongs to the alias lists of two different directions |
| Input.TerminateIsNoAlias | index.mjs:62-64 | escape and ctrl+c are not direction aliases |
| Input.Requested | index.mjs:25-28 | the direction a key name asks for is the one whose alias list holds it; no direction when no list holds it |
| Input.ApplyKeyIsOneLookup | index.mjs:66-88 | the four sequential guarded `if`s equal one alias lookup followed by one reversal guard |
| Input.KeyNeverReverses | index.mjs:66-88 | a key never sets the heading to the opposite of the heading held just before that key |
| Input.KeyAcceptance | index.mjs:66-88 | a direction key sets the heading to its direction exactly when the stored heading is not its opposite (turns, same direction, unset heading); a reversal leaves the state unchanged |
| Input.OtherKeysIgnored | index.mjs:61-89 | a key that is neither a terminate key nor an alias leaves the state unchanged |
| Input.TwoTurnsReverse | index.mjs:66-88 | heading right, `up` then `left` before a tick leaves the heading left |
| Input.ApplyKeyPreservesValid | index.mjs:61-89 | key events keep the state invariant |
| Food.CandidatesAreInterior | index.mjs:215-216 | every in-range draw gives an interior cell, and every interior cell is given by some in-range draw |
| Food.Spawn | index.mjs:213-232 | a cell is found exactly when some draw lands off the body; it is interior, off the body, and the first such draw's cell |
| Food.GenerateFood | index.mjs:213-234 | the sampling loop with its inner body scan finds a cell exactly when some draw is free; the cell is interior, off the body, and the same one `Spawn` picks |
| Engine.HitsBody | index.mjs:102-108 | the body scan from index i reports a hit exactly when some segment at index ≥ i equals the head |
| Engine.ScanFromOneIsTail | index.mjs:101-108 | the scan from index 1 searches exactly the body without its head |
| Engine.Render | index.mjs:131-154 | rendering clears `addBody`, keeps heading and food, and leaves a non-empty body |
| Engine.Tick | index.mjs:91-116 | a tick ends the game exactly when the current head is on body[1..] or off the interior; otherwise the heading is kept, `addBody` is cleared, the food is respawned to an interior cell off the pre-move body on a hit and is unchanged otherwise |
| Engine.SingleSegmentNeverSelfCollides | index.mjs:101-113 | a one-segment snake's tick ends the game only at the border |
| Engine.TickShifts | index.mjs:136-153 | with a heading set and no food hit, the body becomes the stepped head followed by the old body without its tail; the length is unchanged |
| Engine.TickGrows | index.mjs:95-153 | with a heading set and the food under the head, the body becomes the stepped head followed by the whole old body; length and score grow by exactly one |
| Engine.TickIdle | index.mjs:136 | before the first accepted key a tick changes nothing |
| Engine.TickScore | index.mjs:122 | the score, body length − 1, grows by one across a food tick and is unchanged otherwise (the panel prints it before the body update, so the raised value appears on the next tick) |
| Engine.TickPreservesValid | index.mjs:91-154 | ticks keep the state invariant, so `addBody` is false between events and never set while the heading is unset |
| Growth.RenderAsWritten | index.mjs:131-154 | the literal push of an undefined segment, `unshift` and `pop` give the engine's body: the undefined segment is popped whenever a heading is set |
| Growth.HoleKeptWithoutHeading | index.mjs:131-136 | growth with no heading would keep the undefined segment at the tail |
| Setup.InitializeGameStates | index.mjs:171-185 | the loops append (i,1) and (i,H) for i = 1..W to top and bottom, and (1,i) and (W,i) for i = 1..H to left and right; the body gets (15,7) pushed |
| Setup.BordersAreTheRing | index.mjs:172-180 | from empty lists, a cell is on a border list exactly when it is on the closed field and not interior |
| Setup.InitializationAppends | index.mjs:171-180 | a second initialisation doubles the lists, so it is not idempotent |
| Setup.Initial | index.mjs:34-43 | the initial state satisfies the invariant, is the single segment (15,7) with no heading, and has score 0 |
| Game.Apply | index.mjs:57-89 | applying one key press or timer fire to a valid state yields a valid state |
| Game.EventNeverShrinks | index.mjs:91-154 | no event shortens the body |
| Game.Run | index.mjs:57-89 | every state reached by any sequence of events is valid and at least as long as the state it started from |
| Game.UnsetHeadingMeansStart | index.mjs:34-43 | in any run from the start, the body is non-empty, and an unset heading means the state is still the initial one |
| Scenarios.ThreeStepsRight | index.mjs:136-153 | heading right from the start, three ticks give heads (16,7), (17,7), (18,7) at length 1 |
| Scenarios.ReversalRejectedTurnAccepted | index.mjs:66-82 | heading right, `left` is ignored and `up` is taken |
| Scenarios.SelfCollisionSeenNextTick | index.mjs:101-153 | a move onto the body is carried out and drawn; the following tick ends the game |
| Scenarios.BorderSeenNextTick | index.mjs:110-153 | a move onto the column x = W is carried out; the following tick ends the game |
| Scenarios.FoodCanLandUnderNewHead | index.mjs:95-99 | the respawned food can be the cell the head moves onto in the same tick |

## Left out

- Terminal output is left out because it has no effect on the state. This covers clearing, colours, cursor moves, the alternate screen, drawing the snake, food and borders, and the score text (lines 118-127, 156-168, 187-207, 236-238).
- The 200 ms `setInterval` and the keypress wiring are left out. Events are any interleaving of key presses and ticks (`Game.Run`).
- The initial `update()` call at line 240 is left out as a separate step; it is one ordinary tick.
- `Math.random` is replaced by a supplied sequence of draws. Termination of the `while (true)` loop is not modelled. `Engine.Tick` requires, when the head is on the food, that the draws contain a free cell. `Game.Run` returns `None` when a tick is given too few or out-of-range draws.
- `process.exit` is modelled only as the terminal outcome `GameOver`. The hard-coded high score of 0 is not modelled.
- Key events without a key object are left out. Key names are modelled as plain strings.
- Engine.Render: its own contract states only the flags and a non-empty body. The body it produces is stated by `Growth.RenderAsWritten`, `Engine.TickShifts` and `Engine.TickGrows`.
- Engine.Render: requires that growth is not pending while the heading is unset. A body of positions cannot hold the undefined segment that case leaves behind. `Growth.HoleKeptWithoutHeading` models that case on segments, and `Engine.TickPreservesValid` proves it is never reached.
- Engine.Tick: for the same reason, requires that with the heading unset the head is not on the food and growth is not pending. Every valid state meets this (`Engine.TickPreservesValid`).
