# Wave rider: the game state

A browser game draws a sine track across an 800×400 canvas. The player moves
a marker left and right along the track with the arrow keys, rectangles fall
from the top edge, and the score counts frames until the marker's box meets
one of them. All of this lives in module-level variables of `script.js` that
the key handler, the animation frame, the spawn timer and the start/pause
button update in place.

This project models that state and its handlers:

- `rules.dfy`, module `Rules`: the pure rules. `Move` is one key press.
  `Collides` is the frame's four-inequality box test. `Walk` is the frame's
  obstacle pass, written the way the code runs it: a `forEach` over a list
  that `splice` shrinks while the walk is under way. `Sweep` is an independent
  element-by-element statement of the same pass, and `PassIsSweep` proves
  that the two agree. The consequence of the splice is stated in
  `SkipAfterRemoval`. When an obstacle is removed, the one after it slides
  into its slot and is neither moved nor collision-tested in that frame. The
  removed obstacle itself is still tested (`RemovedStillTested`).
- `game.dfy`, module `Game`: the class `WaveGame`. Its fields are the
  script's globals `characterX`, `characterY`, `score`, `phaseShift`,
  `isPlaying` and `obstacles`, and its methods are the handlers. Every method
  states its whole new state and keeps `Valid()`. Those that move the marker
  or the obstacles state it in terms of the `Rules` functions.
  `Valid()` requires the marker column to be a multiple of 10 in [0, 800].
  It also requires every obstacle to have an even `y` in [0, 400], a column in
  [0, 800), and a width and height in [10, 40). `TraceWave` is the
  track-drawing loop that sets the marker's height.

Numbers: `characterX` and obstacle `y` only ever take integer values in the
code (start at 50 and 0, change by ±10 and +2), so they are `int`. The marker
height, the phase, and an obstacle's column, width and height are `real`.
Floating-point rounding is not modelled.

Two behaviours follow the code where a plain reading might expect otherwise:

- `startGame` draws the first frame synchronously before it returns. A press
  of the button from a stopped game therefore leaves `score` at 1, not 0.
  The track has also scrolled once. `Reset` states the assignments on their
  own.
- Collision is a test of the marker's 10×10 box against the rectangle. It is
  not a circle test, although the marker is drawn as a circle.

## Model

| member | source | states |
|---|---|---|
| `Rules.Move` | script.js:66-73 | ArrowRight adds 10 exactly when the column is below 800; ArrowLeft subtracts 10 exactly when it is above 0; every other key, or a press at the edge, leaves the column unchanged |
| `Rules.MovesStayOnTrack` | script.js:68-71 | from an on-track column, no key sequence leaves [0, 800] or the 10-pixel grid |
| `Rules.ReachableColumns` | script.js:66-73 | from the start column 50, a column is reachable by some key sequence if and only if it is a multiple of 10 in [0, 800] |
| `Rules.RightPresses` | script.js:68-69 | k right presses from a column with room to the edge move it exactly 10·k to the right |
| `Rules.LeftPresses` | script.js:70-71 | k left presses from a column with room to the edge move it exactly 10·k to the left |
| `Rules.Collides` | script.js:95-98 | the collision test: the marker's column is left of the obstacle's right edge, its right edge is right of the obstacle's column, and the same two conditions vertically, all strict |
| `Rules.CollidesIffOverlap` | script.js:95-98 | the four strict inequalities hold exactly when the marker's box and the obstacle share an interior point |
| `Rules.Fallen` | script.js:89 | an obstacle one frame later: `y` grows by 2, and column, width and height are untouched |
| `Rules.Visit` | script.js:88-100 | one callback of the walk at index i: the hit result is the collision test of the fallen obstacle; the list loses exactly one element when the fallen `y` is past 400, and keeps its length otherwise |
| `Rules.Walk` | script.js:87-101 | the `forEach` from index i to the length n the list had when it began: visits each index still inside the list, skips one that the splices have left past its end, and reports whether any visit hit |
| `Rules.ObstaclePass` | script.js:85-102 | a frame's obstacle pass: the walk from index 0 over the list's length at the start of the frame |
| `Rules.WalkPastEnd` | script.js:87 | an index the shrunken list no longer holds is skipped: the rest of the walk changes nothing and tests nothing |
| `Rules.WalkFrom` | script.js:87-101 | the index walk, resumed at any point, finishes exactly as the element-by-element sweep of the not-yet-walked part |
| `Rules.PassIsSweep` | script.js:87-101 | a frame's obstacle pass equals the sweep: each visited obstacle falls 2 pixels and keeps its column and size; one past 400 is removed and the next is kept unmoved and untested; the pass reports a hit exactly when a visited obstacle, at its new position, meets the marker |
| `Rules.PassShrinks` | script.js:87-92 | the pass never lengthens the obstacle list |
| `Rules.PassKeepsWellFormed` | script.js:89-91 | if every obstacle has an even y in [0, 400] and its drawn shape, so does every obstacle after the pass |
| `Rules.SkipAfterRemoval` | script.js:89-91 | when the first obstacle falls past 400, the second comes out first and unchanged, and the hit result does not depend on it |
| `Rules.RemovedStillTested` | script.js:90-100 | at whatever index the walk has reached, an obstacle spliced out there is still tested at its new position: if it meets the marker the rest of the walk reports a hit, and the list comes out shorter |
| `Game.MarkerY` | script.js:37 | the marker height after the track is drawn: the sample at its column when the column is one of 0..799, the previous height otherwise |
| `Game.TraceWave` | script.js:34-38 | the marker's height becomes the track's sample at its column when that column is in 0..799, and is unchanged otherwise (column 800) |
| `Game.WaveGame.constructor` | script.js:16-24 | the loaded page: not playing, column 50, height 0, score 0, no obstacles, phase from the slider |
| `Game.WaveGame.MoveCharacter` | script.js:66-73 | the column becomes `Move` of the old column and the key; the marker stays on track |
| `Game.WaveGame.GenerateObstacle` | script.js:75-83 | appends one obstacle at y = 0 with the drawn column and size, and keeps every other obstacle |
| `Game.WaveGame.EndGame` | script.js:113-114 | the game stops |
| `Game.WaveGame.AdvanceObstacles` | script.js:85-102 | the list becomes the pass's survivors; playing continues only if it was on and no visited obstacle hit; the list does not grow and stays well formed |
| `Game.WaveGame.Frame` | script.js:28-56 | marker height from the track at the old phase; then the obstacle pass; score +1 and phase −2 exactly when still playing after the pass, else both unchanged; another frame is requested exactly when still playing |
| `Game.WaveGame.Reset` | script.js:104-108 | playing, no obstacles, score 0, column 50 |
| `Game.WaveGame.StartGame` | script.js:104-111 | after the reset, the first frame runs with no obstacles, so the game is on with score 1, column 50, height sampled at column 50, and the phase moved by −2 |
| `Game.WaveGame.PressStartButton` | script.js:133-141 | from a stopped game it starts one; while playing it only stops play, leaving score, obstacles, column, height and phase as they were |

## Left out

- Canvas drawing (`clearRect`, the track's `lineTo`/`stroke`, `drawCharacter`, `fillRect`): output only, no state change.
- `Math.sin` and the amplitude and frequency sliders: the track is the parameter `curve`, the track height at argument `x + phaseShift`.
- `Math.random` in `generateObstacle`: the three draws are parameters of `GenerateObstacle`, restricted to the ranges the draws come from.
- `requestAnimationFrame` and `setInterval`: frames and spawns are explicit method calls. The spawn intervals that pile up on each restart, and a frame queued before a pause, are sequences of such calls.
- `updateValues` and the slider `input` events: no operation models them. In the code they reassign `phaseShift` (and the amplitude and frequency) from the sliders at any time, also mid-game, so in the running program `phaseShift` changes by more than the −2 per frame that `Frame` states. Its text output is display glue.
- The score text, `alert`, button labels, and the unused `level` variable: display glue or dead state.
- Object identity of obstacles: each obstacle literal is referenced only from the list, so it is modelled as a value and `obstacle.y += 2` as an update of the list element.
- A persisted high score: `script.js` has no such code, so it is not part of this model.
