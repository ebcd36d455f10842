# flappy-bird.js in Dafny

This project models the simulation core of `flappy-bird.js`, a one-file browser
game in which a bird falls under gravity, flaps on a click or the Space key, and
flies through pairs of pipes that scroll in from the right. The model covers
these parts of the game:
- the bird's physics (`bird.update`, `jump`, `reset`);
- the pipe set (`createPipe`, `updatePipes`, including the `splice` inside
  `forEach`);
- the collision test (`checkCollision`);
- the state machine made of the `gameLoop` dispatch, `startGame`, `gameOver`,
  `restartGame` and the click and Space handlers.

The model is in five modules:

- `Bird` (bird.dfy): the bird's body as a value, and `update`, `jump` and `reset`
  as functions on it.
- `Pipes` (pipes.dfy): what one frame of `updatePipes` does to the pipe array and
  the score, as functions on sequences.
  - `FateAt` gives each pipe's fate in the frame: visited and kept, visited and
    spliced out, or passed over because an earlier splice slid it into an index
    that was already visited.
  - `Walk` is a second definition of the same fates. It walks the array from the
    front the way the iteration does.
  - Also here: the spawn cadence, and the exactly-once scoring of a pipe over
    its lifetime.
- `Collision` (collision.dfy): the overlap test of `checkCollision`.
- `Game` (game.dfy): the game's globals as one `World` value. Eight functions
  on it stand for the script's top-level code: `Initial` (the globals at
  load), `BirdStep` (`bird.update` in the game), `PipeStep` (`updatePipes`),
  `Frame` (`gameLoop`), `Begin` (`startGame`), `EndGame` (`gameOver`),
  `Restart` (`restartGame`) and `Activate` (the click and Space handlers).
  The other four script functions are functions of the other modules, which
  these eight call: `bird.jump` and `bird.reset` are `Bird.Jump` and
  `Bird.Reset`, `createPipe` is `Pipes.NewPipe` with `Pipes.TopHeight`, and
  `checkCollision` is `Collision.Collides`. An invariant `Inv` holds for every
  reachable world, and the lemmas state the frame and state-machine rules.
- `Session` (session.dfy): the running game as a class `GameSession`.
  - Its fields are the script's globals and the bird's mutable fields.
  - Its methods are the script's functions and handlers. They update the fields
    step by step as the script does. `updatePipes` is a `while` loop over the
    indices forEach visits, and the callback splices the array in place.
  - The methods for the script's top-level functions and handlers
    (`BirdUpdate`, `UpdatePipes`, `Step`, `StartGame`, `GameOver`,
    `RestartGame`, `Click` and `KeyDown`) are each proved to change the object
    exactly as the matching `Game` function changes a `World`, and to keep
    `Inv`.
  - The helper methods are proved against functions of the other modules:
    `Jump` and `BirdReset` against `Bird.Jump` and `Bird.Reset`, `CreatePipe`
    against `Pipes.NewPipe` and `Pipes.TopHeight`, `SweepPipes` and
    `VisitPipe` against `Pipes.Swept`, `Pipes.Gained` and `Pipes.Visit`, and
    `CheckCollision` against `Collision.Hits`. `CreatePipe` on its own can
    break the bound on the number of pipes in `Inv`; it is only called from
    `UpdatePipes`, which keeps it.

The bird's position and velocity are `real`. Every value the game gives them
(0.5, -9 and half the canvas height) is exact there. Pipe coordinates are
integers.

The code keeps one behaviour that may be unintended, and the model keeps it as
written. `bird.update` calls `gameOver` when the bird hits the ground, and
`gameOver` stores the larger of the best score and the score at that moment.
The same frame then still runs `updatePipes`, which can add a point. If no pipe
collides afterwards, `gameOver` is not called again, so that point is never
committed to the best score. When the score had already reached the best score
before the frame, the game ends with the score above the best score.
`Game.LatePointUncommitted` proves this for every world, and
`Game.LateScoreQuirk` for a concrete world that satisfies the invariant, with
score and best score both 0 before the frame.

## Model

| member | source | states |
|---|---|---|
| Bird.Update | flappy-bird.js:53-71 | After an update the bird lies between the ceiling and the floor. The floor clamp fires exactly when the moved position would cross the floor. A clamp that fires leaves the velocity 0 and the bird on the limit it crossed. Otherwise the bird moves by the old velocity plus gravity. |
| Bird.Jump | flappy-bird.js:73-75 | A jump sets the velocity to -9, whatever it was before, and keeps the position. |
| Bird.Reset | flappy-bird.js:77-80 | A reset puts the bird at rest, centred between ceiling and floor. |
| Bird.RiseStaysInBounds | flappy-bird.js:53-71 | However the velocity is overwritten before each update, any run of updates keeps the bird on the canvas. |
| Pipes.TopHeight | flappy-bird.js:91-93 | The drawn top height lies between 50 and the canvas height minus 250. |
| Pipes.TopHeightCovers | flappy-bird.js:93 | Every height in that range is drawn by some random value in [0, 1). |
| Pipes.NewPipe | flappy-bird.js:95-101 | Definition: the pipe createPipe pushes, at the canvas's right edge, with the given top height, the bottom pipe 150 below it, width 60 and not passed. |
| Pipes.Visit | flappy-bird.js:133-140 | A visit moves a pipe 3 to the left and changes nothing else but the flag. The flag ends up set exactly when it was set or the pipe's right edge is now left of the bird's left edge. |
| Pipes.FateAt | flappy-bird.js:132-146 | Definition: the pipe at index i is passed over when the pipe before it was spliced out; otherwise it is visited, and spliced out exactly when the visit leaves it off screen. |
| Pipes.Walk | flappy-bird.js:132-146 | Definition: the same fates found by walking the array from the front; it gives one fate per pipe. |
| Pipes.Swept | flappy-bird.js:130-146 | Definition: the array after the loop, made of every pipe that was not spliced out, visited or (when passed over) unchanged, in order. |
| Pipes.Gained | flappy-bird.js:136-139 | Definition: the points the loop adds, one per visited pipe whose visit scores. |
| Pipes.Outcomes | flappy-bird.js:132-140 | In a frame, a visited pipe's x drops by exactly 3 and a passed-over pipe's x stays. Heights and width never change, and a set passed flag stays set. |
| Pipes.WalkAgrees | flappy-bird.js:132-146 | Two definitions give the same fates: the rule by index (a pipe is passed over exactly when the one before it was spliced out) and the walk from the front of the array. |
| Pipes.NextIndex | flappy-bird.js:143-145 | Each pass of the loop handles at least one pipe and never runs past the array. |
| Pipes.SweepAdvance | flappy-bird.js:132-146 | One callback run leaves the array as the kept pipes so far followed by the untouched rest. This holds whether the callback overwrites the pipe with its visit or splices it out. The next pipe to handle is not a passed-over one. The score grows by what the visit scored. |
| Pipes.PassMoved | flappy-bird.js:133-140 | Overwriting a pipe that stays with its visit appends the visit to the kept pipes. |
| Pipes.PassRemoved | flappy-bird.js:143-145 | Splicing out a pipe whose visit left the screen leaves the kept pipes followed by the rest, and still counts the point its visit scored. |
| Pipes.PassSkipped | flappy-bird.js:132-146 | A pipe passed over joins the kept pipes unchanged and scores nothing. |
| Pipes.RemainingOnScreenOrSkipped | flappy-bird.js:143-146 | After the sweep every pipe left is on screen, except pipes that were passed over: each off-screen pipe left is, unchanged, a pipe of the array whose fate was to be passed over. |
| Pipes.SpliceSkipsNext | flappy-bird.js:132-146 | With two pipes that both leave the screen, the first is spliced out. The second is passed over and stays, off screen. |
| Pipes.GainCountsFlips | flappy-bird.js:136-139 | The points one frame adds equal the number of passed flags it sets. |
| Pipes.RemainingWellFormed | flappy-bird.js:130-146 | Pipes shaped as createPipe makes them (width 60, gap 150, top height in range, x at most the canvas width) keep that shape through a frame. |
| Pipes.VisitedPosition | flappy-bird.js:133-137 | After n visits a pipe has moved 3n to the left. It is passed exactly when it was passed before or its right edge is left of the bird, and a set flag never clears. |
| Pipes.ScoredOnce | flappy-bird.js:136-138 | Over any number of visits a pipe earns one point if its flag went from unset to set, and none otherwise. |
| Pipes.SpawnCadence | flappy-bird.js:149-152 | From frame count 0, the first n calls create exactly n / 90 pipes: one at frames 90, 180, and so on. |
| Collision.Hits | flappy-bird.js:156-165 | Definition: the bird at height y overlaps a pipe when their horizontal extents overlap and the bird's disc reaches above the top pipe's end or below the bottom pipe's start. |
| Collision.Collides | flappy-bird.js:155-166 | Definition: the bird collides when some pipe of the array overlaps it. |
| Collision.SafeIffInsideGaps | flappy-bird.js:155-166 | Restates the collision test in its negated form: the bird collides with no pipe exactly when it lies wholly inside the gap of every pipe it overlaps horizontally. It follows directly from the definitions; the loop is proved against them by Session.GameSession.CheckCollision. |
| Collision.HitsTopPipe | flappy-bird.js:158-161 | A bird at height 50 overlaps a pipe at x 70 whose top pipe reaches down to 70. |
| Collision.ClearsGap | flappy-bird.js:158-165 | The same bird clears a pipe at x 70 whose gap spans 20 to 170. |
| Game.Initial | flappy-bird.js:10-20 | The loaded game is in the start state with score 0, the stored best score, frame count 0 and no pipes. The bird is reset: at rest at half the canvas height. It satisfies the invariant. |
| Game.EndGame | flappy-bird.js:261-272 | gameOver sets the game-over state and makes the best score the larger of best and score. Nothing else changes and the invariant is kept. |
| Game.BirdStep | flappy-bird.js:53-71 | The bird moves as Bird.Update says. A ground hit ends the game only while playing. Score, frames and pipes stay, and the invariant is kept. |
| Game.PipeStep | flappy-bird.js:130-153 | The score grows by exactly the points the sweep gained. The frame count grows by one. The array is the swept pipes, plus one new pipe exactly when the new frame count is a multiple of 90; that pipe is the one createPipe makes, at the canvas's right edge, not passed, with the top height drawn from r. The invariant is kept. |
| Game.PipeStepSpawns | flappy-bird.js:149-152 | The spawn test that SpawnCadence counts is the one a frame of updatePipes makes: a pipe is added to the swept ones exactly when it holds for the frame count the frame starts from. |
| Game.Frame | flappy-bird.js:226-238 | A frame keeps the invariant: bird on the canvas, pipes well formed, at most one pipe per 90 frames. |
| Game.Begin | flappy-bird.js:253-259 | startGame acts only in the start state, where it starts play with a jump. |
| Game.Activate | flappy-bird.js:286-303 | A click or Space starts the game from the start state and jumps while playing. After game over it does nothing. It never touches score, best, frames, pipes or the bird's position. |
| Game.Restart | flappy-bird.js:274-283 | restartGame yields the initial world with the best score unchanged. |
| Game.FrameRules | flappy-bird.js:226-238 | Outside play a frame changes nothing. In play it adds exactly the points the sweep gained and counts one frame. The best score never falls, and stays exactly as it was when the game goes on. The game ends exactly when the bird grounded or now overlaps a pipe. |
| Game.FrameCommitsBest | flappy-bird.js:226-238 | When a frame ends the game on a pipe, or gains no point, the best score covers the final score. |
| Game.LatePointUncommitted | flappy-bird.js:226-238 | When the bird grounds and then overlaps no pipe, the game ends with the best score committed from the score before the sweep, and the sweep's points added after it; the final score exceeds the best when the score had reached the best and a point was gained. |
| Game.LateScoreQuirk | flappy-bird.js:226-238 | For a concrete world satisfying the invariant, with score and best score 0, a ground hit in the frame a pipe scores ends the game with score 1 and best score 0. |
| Game.EndGameIdempotent | flappy-bird.js:261-272 | Calling gameOver twice is the same as calling it once. |
| Game.RestartAfterGameOver | flappy-bird.js:261-283 | Restarting after game over keeps the larger of the old best and the final score, and resets everything else. |
| Session.GameSession.constructor | flappy-bird.js:9-22 | The new session is the initial world for the stored best score. |
| Session.GameSession.BirdUpdate | flappy-bird.js:53-71 | The fields change exactly as Game.BirdStep says, and the invariant is kept. |
| Session.GameSession.Jump | flappy-bird.js:73-75 | Only the velocity changes, as Bird.Jump says. |
| Session.GameSession.BirdReset | flappy-bird.js:77-80 | Only the bird changes, as Bird.Reset says. |
| Session.GameSession.CreatePipe | flappy-bird.js:90-102 | Exactly one pipe is appended: at the canvas's right edge, with the drawn top height, gap 150, width 60 and not passed. Earlier pipes and all other fields stay. |
| Session.GameSession.UpdatePipes | flappy-bird.js:130-153 | The fields change exactly as Game.PipeStep says, and the invariant is kept. |
| Session.GameSession.SweepPipes | flappy-bird.js:132-146 | The in-place forEach loop leaves exactly the swept array, and adds exactly the points gained, to the score. |
| Session.GameSession.VisitPipe | flappy-bird.js:132-146 | The callback moves the pipe and may score. If the visit leaves the pipe off screen it is spliced out of its index; otherwise it is overwritten there. |
| Session.GameSession.CheckCollision | flappy-bird.js:155-166 | The result is true exactly when some pipe overlaps the bird. Nothing changes. |
| Session.GameSession.Step | flappy-bird.js:226-238 | The fields change exactly as Game.Frame says, and the invariant is kept. |
| Session.GameSession.StartGame | flappy-bird.js:253-259 | The fields change exactly as Game.Begin says. |
| Session.GameSession.GameOver | flappy-bird.js:261-272 | The fields change exactly as Game.EndGame says. |
| Session.GameSession.RestartGame | flappy-bird.js:274-283 | The fields change exactly as Game.Restart says. |
| Session.GameSession.Click | flappy-bird.js:286-292 | The fields change exactly as Game.Activate says. |
| Session.GameSession.KeyDown | flappy-bird.js:294-303 | The Space key acts as Game.Activate says. Any other key changes nothing. |

## Left out

- Drawing is not modelled. That covers `bird.draw`, `drawPipes`, `drawBackground`, `drawStartScreen`, `drawGameOver` and every `ctx` call; they render and change no game state.
- DOM updates are not modelled: the score and best-score text, and showing or hiding the instructions and the restart button. They only mirror the state.
- Storage is not modelled. The best score read from `localStorage` at load is the constructor's `storedBest`, a natural number, so the coercion of a stored string is not modelled. The write in `gameOver` is the `bestScore` field itself.
- Scheduling and listener registration are not modelled. A frame is one call of `Step`, which leaves out `requestAnimationFrame`. A click is a call of `Click`, a key press a call of `KeyDown` with the key's code, and the restart button a call of `RestartGame`. `preventDefault` is left out.
- `Math.random` is an input `r` with 0 <= r < 1. `Step` and `UpdatePipes` take it every frame and use it only when a pipe is created.
- Floating point: positions and velocities are exact reals. IEEE-754 rounding is not modelled.
- The canvas size comes from the page, which is not part of this model. It is a constructor parameter.
- Session.GameSession.constructor: requires the canvas to be at least 300 pixels tall, so that the range `createPipe` draws from is non-empty. Shorter canvases are not modelled.
