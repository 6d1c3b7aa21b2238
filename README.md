# Brick-breaker game state, modelled in Dafny

This project models the gameplay core of a small browser brick-breaker game, `game.js`. A global
`gameState` object holds 50 blocks, a paddle, a ball, a score and a game-over flag. The core code
changes that object in place:

- `initGame` builds a 5 x 10 grid of blocks and places the paddle and the ball.
- The pointer handler `movePaddle` moves the paddle and clamps it to the canvas.
- On every animation frame, `gameLoop` calls `moveBall` and then `checkCollisions`. It asks for
  the next frame only while the game is not over.
- `checkCollisions` bounces the ball off the walls, the top and the paddle. It ends the game when
  the ball falls below the canvas, and hides each block whose rectangle contains the ball's centre.
  Each hidden block adds one point, and a score of 50 ends the game.

The project has three files:

- `rules.dfy` (module `Rules`): the entities as datatypes (`Block`, `Paddle`, `Ball`, and `World`
  for the whole state) and every update rule as a pure function. `Run` applies a sequence of frames
  and pointer moves. It stops once the game is over, because `gameLoop` then stops rescheduling
  itself and `endGame` detaches the pointer listener. `Inv` is the invariant that holds from
  `initGame` on.
- `properties.dfy` (module `Properties`): lemmas about those rules. They cover the grid layout, the
  exact effect of one collision pass, the fact that the invariant is kept, and what happens after a
  game ends.
- `game.dfy` (module `Game`): class `GameState` with the fields of `gameState`. Its methods make
  the same assignments as the source, in place. `InitGame`, `MovePaddle`, `MoveBall`,
  `VisitBlock`, `CheckCollisions` and `GameLoop` are each proved to produce the state that the
  matching function of `Rules` computes from the old state; `EndGame` is proved to set the flag and
  touch nothing else. `InitGame` establishes `Valid()` (`Inv` plus a playable canvas width), and
  `MovePaddle`, `MoveBall`, `CheckCollisions` and `GameLoop` keep it.

Canvas width and height are the constants `W` and `H` of the class. The pointer position
(`clientX - rect.left`) is one integer argument.

Behaviour kept as the code has it:

- In one call of `checkCollisions`, `dy` flips once for the top, once for the paddle and once for
  each hidden block.
- `endGame` does not stop the checks that follow it in the same call.
- The paddle test has no lower bound on the ball's `y`.

The grid leaves 5-pixel gaps between blocks, so no point lies inside two of them
(`Properties.CellsDisjoint`). So, from `initGame` on, no call hides more than one block and scores
more than one point (`Properties.CollidedAtMostOneBlock`).

Two places where the code behaves differently from what one would expect of the game. The model follows the code in both:

- Take a ball at (400, 560) with `dy = +3` above a paddle whose top is at 570. One would expect it
  to bounce on the first frame. The code bounces only when `y + radius > paddle.y`, which is
  563 + 5 = 568 against 570. So the bounce comes one frame later. `Properties.PaddleScenario`
  proves both frames.
- One would expect nothing to change after a win in the same tick. The code runs the remaining
  block checks after either `endGame` call. After a win they have nothing left to hide: every
  intermediate state of the block loop keeps the invariant (`Properties.BlockPassInv`), and under
  the invariant a score of 50 means every block is hidden (`Properties.WonClearsAll`).

## Model

| member | source | states |
|---|---|---|
| Game.GameState.constructor | game.js:11-17 | the initial global: no blocks, score 0, not over |
| Game.GameState.InitGame | game.js:20-55 | rebuilds the grid with nested loops. The new state is `InitialWorld(W, H)` whatever the old state was, so a second call gives the same state, and the invariant holds |
| Game.GameState.MovePaddle | game.js:83-92 | only `paddle` may change. The new state is `PointerMoved` of the old one, and the invariant is kept, so the paddle stays on the canvas |
| Game.GameState.MoveBall | game.js:150-153 | only `ball` may change. The new state is the old one with the ball moved by `(dx, dy)`, and the invariant is kept |
| Game.GameState.EndGame | game.js:205-206 | sets the game-over flag and may change nothing else |
| Game.GameState.VisitBlock | game.js:183-200 | the block callback's effect equals `BlockStep` on the old state |
| Game.GameState.CheckCollisions | game.js:156-202 | the new state is `Collided` of the old one, and the invariant is kept |
| Game.GameState.GameLoop | game.js:95-106 | one frame gives `Tick` (move, then collide) of the old state, keeps the invariant, and asks for the next frame exactly when the game is not over |
| Rules.ClampPaddleX | game.js:85-91 | when the paddle fits, the result lies in `[0, W - width]`. An in-range raw position is kept, a negative one gives 0, and one past the right edge gives `W - width` |
| Rules.HiddenCount | game.js:183-193 | the number of hidden blocks never exceeds the number of blocks |
| Rules.BlockPass | game.js:183-201 | visiting blocks never adds or removes blocks |
| Properties.GridSize | game.js:22-33 | `r` passes of the outer loop push `10 * r` blocks |
| Properties.GridCell | game.js:23-33 | block `row * 10 + col` is at `(col * 60, row * 30)`, is 55 x 25 and is visible |
| Properties.GridVisible | game.js:25-31 | every block pushed by `initGame` is visible |
| Properties.CellsDisjoint | game.js:23-31 | no point lies strictly inside two blocks laid out as `initGame` lays them out |
| Properties.HideOne | game.js:192-193 | hiding one visible block raises the hidden count by exactly one |
| Properties.NoneHidden | game.js:30 | when all blocks are visible, the hidden count is 0 |
| Properties.AllHidden | game.js:196-198 | when the hidden count equals the number of blocks, no block is visible |
| Properties.InitialWorldInv | game.js:20-55 | after `initGame`: exactly 50 blocks, all visible, score 0, not over, and the invariant holds |
| Properties.PointerMovedInv | game.js:83-92 | a pointer move changes only `paddle.x`, sets it to the clamp of `pointerX - 75`, and keeps the invariant |
| Properties.BlockStepEffect | game.js:184-199 | one block visit hides the block exactly when it is visible and contains the ball's centre. On a hit it adds one to the score and the hidden count, and flips `dy` once. It sets the flag exactly when the score becomes 50 |
| Properties.BlockPassEffect | game.js:183-201 | after `n` visits, each of the first `n` blocks is hidden exactly when it was visible and contains the ball's centre, and the rest are unchanged. The score rises by the number of newly hidden blocks. `dy` flips once per hit, and the flag is set exactly when the score reaches 50 |
| Properties.BlockPassInv | game.js:183-201 | every intermediate state of the block loop keeps the invariant |
| Properties.CollidedVelocity | game.js:158-175 | `dx` flips exactly when a side wall is hit. `dy` ends up flipped once for the top, once for the paddle and once per hidden block. Both speeds are kept. Position, radius and paddle do not change |
| Properties.CollidedBlocks | game.js:183-193 | a block ends hidden exactly when it was hidden before or it was visible and contains the ball's centre. No block moves or reappears. The score rises by exactly the number of blocks hidden |
| Properties.CollidedGameOver | game.js:178-198 | the flag ends true exactly when it was already true, the ball's bottom edge is below the canvas, or the score reaches 50 from below during the block loop. It is never reset |
| Properties.CollidedAtMostOneBlock | game.js:183-193 | with the grid layout, one call scores at most one point |
| Properties.CollidedInv | game.js:156-202 | `checkCollisions` keeps the invariant: the layout, the score equal to the hidden count (so 0 to 50), the paddle on the canvas, radius 5 and speed 3 on each axis |
| Properties.TickInv | game.js:100-101 | a frame keeps the invariant, never lowers the score and never clears the flag |
| Properties.WonClearsAll | game.js:193-198 | with the invariant, a score of 50 means every block is hidden |
| Properties.RunInv | game.js:95-106 | any sequence of frames and pointer moves keeps the invariant |
| Properties.RunMonotone | game.js:95-106 | over any run, the score never falls and a hidden block never reappears |
| Properties.TerminalIsFinal | game.js:103-105 | once a run has ended the game, more frames or pointer moves change nothing |
| Properties.PaddleScenario | game.js:169-175 | a ball at (400, 560) falling at 3 per frame, above a paddle at 570, bounces on the second frame, not the first |
| Properties.BlockHitScenario | game.js:185-193 | a ball whose centre moves to (65, 40) hides the block at (60, 30), scores 1 and turns back |

## Left out

- Drawing (`clearCanvas`, `drawBlocks`, `drawPaddle`, `drawBall`): these only read the state and draw on the canvas.
- The countdown (`startCountdown`): it uses timers and only writes text.
- `requestAnimationFrame`, `addEventListener` and `removeEventListener`: they are not modelled as calls. `GameLoop` returns whether it asks for the next frame, and `Run` stops taking frames and pointer moves once the game is over.
- `getBoundingClientRect`: the canvas-relative pointer position is an input.
- `endGame`'s `won` argument, the result and score texts, the screen switching and the button handlers: this is page glue. The start and restart buttons call `initGame`, which is `InitGame`.
- Floating point: all positions are integers. The canvas width is even and the pointer position is a whole number, so every division in the code is exact.
- Game.GameState.InitGame: requires a canvas at least 150 wide (so the paddle fits) and of even width. The code itself accepts any canvas.
- Game.GameState.MovePaddle: requires the invariant, which holds only after `InitGame`. The pointer listener is attached only after `initGame` has run.
