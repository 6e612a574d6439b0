# Cansat dodge game — game loop model

A Dafny model of the game logic of `script.js`, a small browser arcade game.
A "cansat" falls down the play area while the player steers it left and right
with the arrow keys to dodge clouds, birds and UFOs that rise from below. The
fall speed comes from the chosen difficulty, and the score grows by one per
frame survived.

The model has four modules:

- `Geometry` (geometry.dfy): rectangles and the four-edge overlap test
  `checkCollision`.
- `Obstacles` (obstacles.dfy): obstacle kinds and positions, the
  `Math.floor(Math.random() * n)` draws, spawning (`createObstacle`), and the
  per-frame rise-and-recycle of `moveObstacles`.
- `Rules` (rules.dfy): the script's globals as one value, and every
  transition as a function of it. These are the difficulty click, key down
  and key up, `startGame` / `startGameOnKeyPress`, one frame of `playGame`,
  and `gameOver`. The file also holds the lemmas about these transitions,
  single frames and runs of many frames.
- `Script` (script.dfy): class `Game`. Its fields are the `player` record, the
  `keys` map, the obstacle list, the "start listener registered" flag and the
  start screen. Its methods update them in place, as the listeners and the
  animation callback do. Each method is proved to end in the state that the
  matching `Rules` function gives.

The inputs the page reads from the browser are parameters:

- The play-area size, the player size and the bounding boxes are integers
  supplied per frame (the `Frame` datatype).
- Each `Math.random()` draw is a `real` in [0, 1).
- The player's start offset (`offsetLeft`) is a parameter of the start
  transition.

Behaviour kept exactly as `script.js` has it:

- A difficulty click changes the speed at any time, also during a run, and
  starting a run keeps the speed.
- Within a frame, obstacles move and are tested for collision first, against
  the player's box from before the frame. Only then does the player fall and
  steer.
- A collision does not end the frame. `gameOver` runs inside the obstacle
  loop, and the player still moves and scores in that frame.
- Steering is two guards, not a clamp. The player can overshoot either edge by
  less than the speed, and holding both keys can cancel out.
- The floor test is strict. Landing exactly on `height - playerHeight` keeps
  the run going.
- A recycled obstacle keeps its kind and gets a fresh left offset.

## Model

| member | source | states |
|---|---|---|
| `Geometry.OverlapsIffCommonPoint` | script.js:138-147 | for well-formed rectangles the collision test holds exactly when the two share a point, boundary included |
| `Geometry.OverlapsSymmetric` | script.js:141-146 | the collision test gives the same answer with its arguments swapped |
| `Geometry.TouchingRectanglesOverlap` | script.js:141-146 | rectangles sharing only an edge or a corner collide; a rectangle collides with itself |
| `Geometry.GapSeparates` | script.js:141-146 | a positive gap on either axis means no collision |
| `Obstacles.RandomBelow` | script.js:110 | `Math.floor(Math.random() * n)` lies in [0, n-1] for positive n and in [n, 0] otherwise |
| `Obstacles.RandomLeft` | script.js:114 | a drawn left offset lies in [0, W-51] when the area is wider than an obstacle, and in [W-50, 0] otherwise |
| `Obstacles.NewObstacle` | script.js:107-117 | a new obstacle starts between H and H+499, at a left offset in [0, W-51] when W > 50 (its kind is one of the three by its type) |
| `Obstacles.Spawn` | script.js:70-72 | the pool holds one new obstacle per draw, in order |
| `Obstacles.Rise` | script.js:122-129 | an obstacle keeps its kind and rises by exactly the speed, or, if that passes y = -50, re-enters at H+50 with a fresh left offset; it never ends above -50 |
| `Obstacles.RiseAll` | script.js:119-135 | moving the pool keeps its size, moves each obstacle as `Rise` does and keeps each kind |
| `Rules.SpeedOf` | script.js:11-15 | every difficulty gives a speed in (0, 8], and only "advanced" gives the default 5 |
| `Rules.Step` | script.js:77-104 | a frame keeps the pool size, the speed and the keys |
| `Rules.Run` | script.js:77-104 | any number of frames keeps the pool size, the speed and the keys |
| `Rules.InitialCoherent` | script.js:7-30 | the loaded page has no run, the start listener registered, speed 5, and satisfies the invariant |
| `Rules.EventsPreserveCoherent` | script.js:18-39 | difficulty clicks, key events and frames keep the invariant: the start listener is registered exactly when no run is active, the speed is in (0, 8], and an active run has 3 obstacles |
| `Rules.KeyDownStartsOnlyWhenArmed` | script.js:30-38 | a key press starts a run (score 0, y 0, x at the start offset, start screen hidden, the pool replaced by the 3 newly spawned obstacles, active) and unregisters the start listener exactly when that listener is registered; otherwise, and in particular during a run, it only records the key as held |
| `Rules.StartGameResets` | script.js:41-75 | starting sets score 0, active, y 0, x to the start offset, hides the start screen, keeps speed, keys and the listener flag, and replaces the whole pool by the 3 newly spawned obstacles (none of the old ones), each in the spawn ranges |
| `Rules.GameOverIdempotent` | script.js:149-156 | running gameOver twice has the same effect as running it once |
| `Rules.SteerGuards` | script.js:85-87 | x drops by the speed only with ArrowLeft held and x > 0; it rises by the speed only with ArrowRight held and x below the limit; holding both can cancel out; no key leaves x alone |
| `Rules.SteerStaysNearEdges` | script.js:86-87 | for speeds up to m, steering keeps x in [1-m, W-w-1+m] |
| `Rules.SteerOvershoots` | script.js:86-87 | steering is not a clamp: at any speed above 1, a left step from x = 1 ends at 1 - speed < 0, and a right step from limit - 1 ends past the limit |
| `Rules.StepWhenInactive` | script.js:77-78 | a frame with no active run changes nothing |
| `Rules.StepMoves` | script.js:77-90 | an active frame lowers the player by exactly the speed and steers from the old x; each obstacle rises by exactly the speed or is reset to H+50; pool size and kinds are kept |
| `Rules.StepOutcome` | script.js:92-99 | the run goes on exactly when there is no collision and no floor exit; the score rises by one unless the floor test fires; an ended run shows the score from before the frame and re-registers the start listener |
| `Rules.FloorExitIsStrict` | script.js:93-96 | without a collision, landing on exactly H-h continues and scores, and one pixel lower ends the run without scoring |
| `Rules.StepSurvives` | script.js:80-99 | a frame without collision or floor exit keeps the run active, lowers the player by the speed and adds one to the score |
| `Rules.RunWhenInactive` | script.js:77-78 | once no run is active, any number of frames changes nothing |
| `Rules.RunDrift` | script.js:83-99 | n frames without collision or floor exit lower the player by n times the speed and add n to the score |
| `Rules.RunFromStart` | script.js:41-104 | after a start, n frames without collision or floor exit give y = n times the speed and score n |
| `Script.Game.constructor` | script.js:7-8 | the fields start as the loaded page's state |
| `Script.Game.SelectDifficulty` | script.js:18-27 | a difficulty click sets the speed from the table and changes nothing else |
| `Script.Game.KeyDown` | script.js:30-38 | a key-down event makes the `Rules.KeyDown` transition |
| `Script.Game.KeyUp` | script.js:39 | a key-up event records the key as released and changes nothing else |
| `Script.Game.StartGameOnKeyPress` | script.js:32-35 | starts the game and unregisters the start listener |
| `Script.Game.StartGame` | script.js:41-75 | the new state is the `Rules.StartGame` transition of the old, the pool built one obstacle per loop turn |
| `Script.Game.CreateObstacle` | script.js:107-117 | appends exactly one `NewObstacle` and changes nothing else |
| `Script.Game.PlayGame` | script.js:77-104 | the new state is the `Rules.Step` frame of the old |
| `Script.Game.MoveObstacles` | script.js:119-136 | the pool is moved as `RiseAll` says; the run is ended if any obstacle's box overlaps the player's; nothing else changes |
| `Script.Game.GameOver` | script.js:149-156 | stops the run, shows the score and registers the start listener |

## Left out

- Page construction and styling are not modelled. This covers element creation, class names, emoji glyphs, `style.top` / `style.left` and the score text. Only the numbers they show are kept: positions, the score, and the final score of the game-over message.
- `requestAnimationFrame` scheduling is not modelled; a frame is one call of `PlayGame`. So the model does not capture that a frame which ended the run by collision still schedules one more frame (which does nothing), nor what a restart before that frame runs would do with two pending callbacks.
- Bounding boxes come from browser layout (`getBoundingClientRect`), so each frame supplies them as inputs. The model does not derive them from the positions it tracks. For example, a recycled obstacle's drawn top is only refreshed on the next frame.
- Play-area and player sizes (`offsetWidth`, `offsetHeight`, `offsetLeft`) are whole-pixel inputs. Fractional layout sizes are not modelled.
- `Math.random()` draws are inputs in [0, 1). Their distribution is not modelled.
- The difficulty buttons are the three of the speed table. A button whose id is not in the table (which would set the speed to `undefined`) is not modelled, because the page markup is not part of this model.
- The player's x and y are undefined until the first run starts. The model starts them at 0; no transition reads them before a run starts.
