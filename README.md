# Flappy bird: bird physics and game state, in Dafny

A model of the playable core of `src/flappybird.js`, a browser flappy bird clone
without pipes. The game keeps three mutable variables: the bird's vertical
position `birdY`, its vertical velocity `vy`, and the game state, `RUNNING` or
`GAME_OVER`. Every animation frame of a running game adds gravity (0.45) to the
velocity, caps it at the fastest fall (12), moves the bird, and puts a bird that
left the 640-pixel board back on its edge (0 at the top, 640 - 24 = 616 at the
bottom), which ends the game. A game that is over does not move. Space or a
pointer press flaps (velocity := -7) while running and restarts once the game is
over; R restarts in either state. A restart puts the bird back at 320, at rest,
running.

Files:

- `physics.dfy` (module `Physics`): the constants, the state as a value
  (`Snapshot`), the frame update `Update`, `Flap`, the initial state, the frame
  loop `Iterate`, and lemmas about runs of frames.
- `input.dfy` (module `Controls`): the key and pointer handlers' decision
  `Dispatch` and its effect `Apply`.
- `trace.dfy` (module `Trace`): any interleaving of frames and inputs (`Run`),
  and what holds of every such game.
- `game.dfy` (module `Session`): class `Game` with the fields `birdY`, `vy` and
  `state`, whose methods update them in place exactly as the script's functions
  do; each method's `ensures` ties the new state to the functions above.

The class invariant is `0 <= birdY <= 616` together with `-7 <= vy <= 12`: a flap
sets -7, a frame only adds gravity up to the cap, and a reset sets 0, so every
reachable state meets it.

## Model

| member | source | states |
|---|---|---|
| `Physics.Initial` | src/flappybird.js:9-21 | The start state is running, at y = 640 / 2 with velocity 0, and satisfies the invariant |
| `Physics.Fall` | src/flappybird.js:84-85 | The velocity after gravity is vy + 0.45 unless that exceeds 12, in which case it is 12; it never exceeds 12 and is never more than vy + 0.45 |
| `Physics.Clamp` | src/flappybird.js:88-96 | The clamped position lies in [0, 616]; it equals the unclamped one exactly when that one is on the board; a position above the top edge becomes 0 and one below the floor becomes 616 |
| `Physics.Flap` | src/flappybird.js:64-66 | A flap sets the velocity to -7 whatever it was, keeps position and state, and keeps the invariant |
| `Physics.Update` | src/flappybird.js:82-97 | A frame of a game that is over changes nothing; in a running game the velocity becomes min(vy + 0.45, 12), the position is the clamped unclamped position, the game ends exactly when the unclamped position is off the board, and the invariant is kept |
| `Physics.CeilingHit` | src/flappybird.js:84-92 | A bird at 0 moving up at 5 ends at 0, velocity -4.55, game over |
| `Physics.FloorHit` | src/flappybird.js:84-96 | A bird at 610 falling at 12 ends at 616, velocity 12, game over |
| `Physics.Iterate` | src/flappybird.js:79-105 | The frame loop run n times without input; frames alone never turn a game that is over back into a running one |
| `Physics.IterateInv` | src/flappybird.js:82-97 | Any number of frames keeps the bird on the board and its velocity in [-7, 12] |
| `Physics.IterateFrozen` | src/flappybird.js:82 | Any number of frames leaves a game that is over exactly as it is |
| `Physics.VelocityRises` | src/flappybird.js:84-85 | While running, n frames raise the velocity to at least min(vy + 0.45 n, 12) |
| `Physics.Descends` | src/flappybird.js:84-86 | Once the velocity is not negative, n running frames lower the bird by at least 0.45 n |
| `Physics.NoInputEndsGame` | src/flappybird.js:82-97 | A valid running game with no input is over after 1385 frames |
| `Controls.Dispatch` | src/flappybird.js:35-47 | Flap exactly for Space or a pointer press while running; restart exactly for R, or Space or a pointer press once the game is over; every other key is ignored; so no input flaps a game that is over |
| `Controls.Apply` | src/flappybird.js:35-47 | Space or a pointer press only flaps a running game, which stays running; the same input restarts a game that is over; R restarts from either state; no input produces a game over state that was not already there; the invariant is kept |
| `Controls.ResetIdempotent` | src/flappybird.js:72-76 | Restarting twice is restarting once |
| `Trace.Next` | src/flappybird.js:35-97 | A running game ends only on a frame whose unclamped position is off the board; a game that is over is left only by a restarting input, and for the initial state |
| `Trace.Run` | src/flappybird.js:35-105 | Frames and inputs applied in order; a running game that ends on the way had at least one frame among the events |
| `Trace.RunInv` | src/flappybird.js:64-97 | Every sequence of frames, flaps and restarts from a valid state ends in a valid state |
| `Trace.StaysOver` | src/flappybird.js:35-47 | A game that is over stays exactly as it is, position and velocity included, through any events that contain no restarting input |
| `Trace.EndsOnlyByClamp` | src/flappybird.js:88-96 | When a running game ends after a sequence of events, one of the events is a frame taken while running whose unclamped position is off the board |
| `Trace.RunFrames` | src/flappybird.js:79-105 | A sequence of n frames with no input is the frame loop run n times |
| `Trace.NobodyHovers` | src/flappybird.js:82-97 | 1385 frames without input end any valid running game |
| `Session.Game.constructor` | src/flappybird.js:9-21 | The fields start in the initial state |
| `Session.Game.Flap` | src/flappybird.js:64-66 | Only the velocity changes, to what `Physics.Flap` gives |
| `Session.Game.GameOver` | src/flappybird.js:68-70 | Only the state changes, to game over |
| `Session.Game.Reset` | src/flappybird.js:72-76 | From any state the fields become the initial state, so a second reset changes nothing |
| `Session.Game.Step` | src/flappybird.js:82-97 | The in-place frame update leaves the fields equal to `Physics.Update` of the old ones, and keeps the invariant |
| `Session.Game.HandleInput` | src/flappybird.js:35-47 | The handlers leave the fields equal to `Controls.Apply` of the old ones |
| `Session.Game.Animate` | src/flappybird.js:79-105 | n frames of the loop leave the fields equal to `Physics.Iterate` of the old ones; the invariant holds after every frame |
| `Session.Game.Play` | src/flappybird.js:35-50 | Frames and inputs delivered one at a time leave the fields equal to `Trace.Run` of the old ones |

## Left out

- Canvas and DOM setup and the registration of the event listeners (src/flappybird.js:28-33, 35, 44): browser plumbing; only the decision inside each handler is modelled. `preventDefault` on Space is not modelled.
- `preloadBird` (src/flappybird.js:54-61): asynchronous image loading with no effect on the game state.
- `requestAnimationFrame` scheduling (src/flappybird.js:50, 104): the host's endless loop becomes the bounded loops `Session.Game.Animate` and `Session.Game.Play`.
- Drawing: `clearRect`, `drawBird` and `drawGameOverText` (src/flappybird.js:80, 99-129) draw and change no state.
- JavaScript's floating-point arithmetic: the model computes with exact reals (0.45 is exactly 45/100), so it says nothing about accumulated rounding, and the 1385-frame bound is for exact arithmetic.
- The bird's horizontal position `birdX` and width: constant and used only for drawing.
- Pipes, scoring, difficulty and a start state: not present in this script (the pipe constants are commented out, and the state has two values).
- The counter widget in homeworks/: unrelated to the game.
