# Snake game: a verified model of the game-state logic

The game is a browser Snake on a 400 x 400 canvas cut into 20-unit cells.
Its whole state is a handful of module globals in `script.js`: the snake
(a head-first array of cells), the stored direction (or none), the food
cell, an optional bonus cell, the score, the high score, the game-over
flag, the speed and the time of the last tick. Handlers reassign these
globals: `update` (one tick), the keydown handler and `changeDirection`
(input), `endGame`, `restartGame`, `setLevel`, and the animation-frame
callback `main` that throttles ticks to the current speed.

The model has four modules:

- `Grid` (Grid.dfy): cells, the four headings, the head move, the random
  cell choice of `spawnFood` and `spawnBonus` (taken as parameters), and the
  body scan `snake.some(...)` as the recursive function `Occupies`.
- `Rules` (Rules.dfy): the globals as one value `World`, and each handler
  as a function from the old state to the new one (`Step`, `EndGame`,
  `Restart`, `SetLevel`, `ChangeDirection`, `KeyDown`, `Frame`), plus the
  invariant `Valid` and `Run`, which folds a sequence of page events.
- `Properties` (Properties.dfy): one lemma per rule of the game.
- `Game` (Game.dfy): the class `SnakeGame`, whose fields are the globals.
  Its methods update the fields step by step as the source does
  (`unshift`, then `pop` on a plain move). Each is proved to give exactly
  the state the matching `Rules` function gives, and to keep `Valid`.

Representation choices:

- Speed is kept in integer tenths of a tick per second: 5 is `50`, 8 is
  `80`, 12 is `120`, and eating food adds `2`.
- Randomness is passed in. A `Pick` is a column and a row in 0..19, as
  `Math.floor(Math.random() * 20)` yields. A `Draw` holds the food pick,
  the outcome of the 10% bonus roll, and the bonus pick. A spawned cell may
  lie on the snake or on the food, as in the source.
- The high-score store is the field `saved`. It is read once when the page
  loads (absent means 0) and written by `endGame`.
- Frame times are integer milliseconds. The throttle is the integer
  comparison `(now - last) * speed < 10000`. `Properties.ThrottleInSeconds`
  proves it equal to the page's test: fewer than `1 / (speed / 10)` seconds
  since the last tick.

Three behaviours of `update`, `restartGame` and the direction handlers are
easy to misread; the model follows the source:

- Eating the bonus does not pop the tail. The pop sits only in the last
  `else` of `update` (script.js:91-93), so the snake grows by one segment.
- `restartGame` sets the speed to 5 whatever level was chosen
  (script.js:135).
- The no-reversal rule tests the stored, pending direction. It does not test
  the heading the last tick used. Two presses inside one tick (up, then left,
  while moving right) therefore turn the snake onto its own neck.
  `TwoPressesReverse` proves that the next tick then ends the game.

The invariant `Valid` holds from page load through any sequence of events.
It says the snake is non-empty, on the board and on the 20-unit lattice,
never overlaps itself, and has each segment next to the one after it. It
also says the food and bonus are on the lattice, the score is non-negative,
and the speed is at least 5.

## Model

| member | source | states |
|---|---|---|
| Grid.Opposite | script.js:21-24 | The pairs the no-reversal tests use (UP/DOWN, LEFT/RIGHT); no heading is its own opposite |
| Grid.Move | script.js:63-67 | With no direction the head stays on the old head; otherwise it moves to a cell sharing a side, and stays on the 20-unit lattice |
| Grid.SpawnFood | script.js:37-42 | The spawned cell lies in [0, 380] on both axes, on multiples of 20, and its column and row are the two draws |
| Grid.SpawnBonus | script.js:45-47 | A bonus exists exactly when the 10% roll is won, on a lattice cell drawn like food |
| Grid.Occupies | script.js:72 | The body scan is true exactly when the cell is one of the segments, tail included |
| Rules.Step | script.js:62-96 | A tick never shortens the snake |
| Rules.Apply | script.js:20-149 | An input or frame event never leaves the snake empty |
| Game.SnakeGame.constructor | script.js:7-15 | The state at page load: one segment at (180, 200), no direction, spawned food, no bonus, score 0, stored high score or 0, speed 5; it satisfies the invariant |
| Game.SnakeGame.Update | script.js:62-96 | The fields after `update` are exactly `Rules.Step` of the fields before, and the invariant is kept |
| Game.SnakeGame.EndGame | script.js:121-129 | The fields after `endGame` are exactly `Rules.EndGame` of the fields before, and the invariant is kept |
| Game.SnakeGame.Restart | script.js:131-138 | The fields after `restartGame` are exactly `Rules.Restart` of the fields before, and the invariant holds |
| Game.SnakeGame.SetLevel | script.js:145-149 | The fields after `setLevel` are exactly `Rules.SetLevel` of the fields before, and the invariant is kept |
| Game.SnakeGame.ChangeDirection | script.js:29-34 | The fields after `changeDirection` are exactly `Rules.ChangeDirection` of the fields before, and the invariant is kept |
| Game.SnakeGame.KeyDown | script.js:20-26 | The fields after a keydown are exactly `Rules.KeyDown` of the fields before, and the invariant is kept |
| Game.SnakeGame.Frame | script.js:50-60 | The fields after a frame are exactly `Rules.Frame` of the fields before, and the invariant is kept |
| Properties.CrashEndsGame | script.js:70-76 | A head off the board or on any current segment ends the game; snake, score, speed, food, bonus and direction are unchanged, and the high score becomes the larger of the two scores |
| Properties.GameEndsOnlyByCrash | script.js:70-76 | After a tick the game is over exactly when it already was or the head hit a wall or the body |
| Properties.PlainMove | script.js:78-93 | A tick that neither collides nor eats pushes the new head and drops the last cell; the length is unchanged and nothing else changes |
| Properties.EatFood | script.js:81-86 | Eating food prepends the head (length + 1), adds 1 point and 0.2 ticks/s, puts the food on a lattice cell in [0, 380], and replaces the bonus by the re-roll |
| Properties.EatBonus | script.js:87-93 | Eating the bonus when the head is not on the food adds 5 points and clears the bonus; the food is unchanged, the tail is not popped and the length grows by 1 |
| Properties.FoodBeforeBonus | script.js:81-90 | When food and bonus share the head's cell, the food rule applies: 1 point and a re-rolled bonus |
| Properties.NoDirectionEndsGame | script.js:63-74 | With no direction stored, a tick is exactly `endGame` |
| Properties.TailCellIsFatal | script.js:70-76 | Moving into the cell the tail is about to leave ends the game |
| Properties.ScoreNeverDecreases | script.js:80-90 | A tick never lowers the score and raises it by at most 5 |
| Properties.StepPreservesValid | script.js:62-96 | A tick keeps the snake non-empty, on the board, on the lattice, free of self-overlap and connected, and keeps food and bonus on the lattice |
| Properties.InitialValid | script.js:7-15 | The state at page load satisfies the invariant |
| Properties.EventPreservesValid | script.js:20-149 | Every frame, key press, button press and level change keeps the invariant |
| Properties.RunPreservesValid | script.js:20-149 | Any sequence of page events from a valid state ends in a valid state |
| Properties.HighScoreNeverDecreases | script.js:121-138 | No sequence of page events lowers the high score |
| Properties.SteerRefusesReversal | script.js:21-24 | A request for the exact opposite of the stored direction leaves it unchanged |
| Properties.SteerAccepts | script.js:30-33 | Any other request sets the stored direction to the requested one |
| Properties.ChangeDirectionSteers | script.js:29-34 | The four sequential tests of `changeDirection` apply the no-reversal rule to one named heading, ignore any other name, and change only the direction |
| Properties.KeyDownSteers | script.js:20-26 | Arrow keys apply the no-reversal rule; Enter restarts only a finished game; any other key changes nothing |
| Properties.TwoPressesReverse | script.js:29-34 | Moving right, "UP" then "LEFT" before the next tick stores LEFT, and that tick ends the game on the snake's neck |
| Properties.EndGameKeepsBest | script.js:124-127 | After `endGame` the high score is the larger of the two scores; the store changes only on a strictly greater score, and then holds it; nothing else but the flag changes |
| Properties.RestartResets | script.js:131-138 | Restart gives snake [(180, 200)], no direction, score 0, speed 5, no bonus, a running game and lattice food; the high score and store are kept, and the invariant holds |
| Properties.RestartIgnoresLevel | script.js:135 | The level chosen before a restart has no effect on the state after it |
| Properties.SetLevelSpeeds | script.js:145-149 | easy, medium and hard set the speed to 5, 8 and 12; any other value leaves it; nothing but the speed changes |
| Properties.FrameIdleWhenOver | script.js:51 | Once the game is over a frame changes nothing |
| Properties.FrameThrottles | script.js:53-57 | A running frame changes nothing when fewer than 1 / snakeSpeed seconds (speed in ticks per second) have passed since the last tick, stated in real seconds as the page computes it; otherwise it records the frame time and ticks |
| Properties.ThrottleInSeconds | script.js:53-54 | The integer test `(now - last) * speed < 10000` (milliseconds, tenths) holds exactly when `(now - last) / 1000 < 1 / (speed / 10)` over the reals |
| Properties.FirstMoveRight | script.js:62-93 | From the start state heading right with food elsewhere, one tick gives the snake [(200, 200)] and the game goes on |
| Properties.LeftFromCorner | script.js:66-76 | A snake at (0, 0) heading left leaves the board and the game ends |

## Left out

- `draw`: it only paints the canvas and changes no state.
- The DOM text and banner updates: UI side effects only.
- The store's string/number coercion: `saved` is a plain optional integer, and read/write are modelled as field accesses.
- The re-arming of `requestAnimationFrame`: `Frame` models one callback, with the stop on game over. Which callbacks are pending, and how a restart re-arms the loop, are not modelled.
- Floating point: speed is exact in tenths, so the rounding of repeated `+= 0.2` is not captured. Frame times are whole milliseconds, and the throttle compare is exact.
- `Math.random`: its values arrive as the `Pick` and `Draw` parameters. The 10% roll is the boolean `lucky`. The uniform distribution is not modelled.
