/** The game state of the snake game as one value, and every handler of the
    game as a function from the old state to the new one. The class
    `Game.SnakeGame` is specified by these functions; the lemmas below state
    what each handler does to the state. */
module Rules {
  import opened Grid

  /** The single starting segment, (9 * 20, 10 * 20). */
  const StartCell := Cell(9 * Box, 10 * Box)

  /** Speeds are kept in tenths of a tick per second: 5 ticks/s is 50. */
  const BaseSpeed := 50
  const EasySpeed := 50
  const MediumSpeed := 80
  const HardSpeed := 120
  /** Eating food adds 0.2 ticks/s. */
  const SpeedStep := 2
  const FoodPoints := 1
  const BonusPoints := 5
  /** A frame ticks once `(now - last) / 1000 >= 1 / (speed / 10)` seconds,
      that is once `(now - last) * speed >= 10000` with `now` in milliseconds. */
  const TickBudget := 10000

  /** The random draws one tick may consume: the new food cell, the 10% bonus
      roll and the bonus cell. */
  datatype Draw = Draw(food: Pick, lucky: bool, bonus: Pick)

  /** The module globals of the game. `saved` is the high-score store. */
  datatype World = World(
    snake: seq<Cell>,
    direction: Option<Direction>,
    food: Cell,
    bonus: Option<Cell>,
    score: int,
    highScore: int,
    gameOver: bool,
    speed: int,
    lastTick: int,
    saved: Option<int>)

  // ----- invariants -----------------------------------------------------

  predicate AllOnGrid(s: seq<Cell>) {
    forall i :: 0 <= i < |s| ==> OnGrid(s[i])
  }

  /** No two segments share a cell. */
  predicate Distinct(s: seq<Cell>) {
    forall i, j :: 0 <= i < j < |s| ==> s[i] != s[j]
  }

  /** Each segment shares a side with the next. */
  predicate Connected(s: seq<Cell>) {
    forall i :: 0 <= i < |s| - 1 ==> Neighbours(s[i], s[i + 1])
  }

  /** What every handler keeps true of the state. */
  predicate Valid(w: World) {
    && |w.snake| >= 1
    && AllOnGrid(w.snake)
    && Distinct(w.snake)
    && Connected(w.snake)
    && OnGrid(w.food)
    && (w.bonus.Some? ==> OnGrid(w.bonus.value))
    && w.score >= 0
    && w.speed >= BaseSpeed
  }

  // ----- handlers -------------------------------------------------------

  /** The state at page load: the stored high score (0 when absent), one
      segment, no direction, a spawned food cell. */
  function Initial(stored: Option<int>, pick: Pick): World {
    World([StartCell], None, SpawnFood(pick), None, 0,
          if stored.Some? then stored.value else 0,
          false, BaseSpeed, 0, stored)
  }

  /** The head cell the next tick would produce. */
  function NextHead(w: World): Cell
    requires w.snake != []
  {
    Move(w.snake[0], w.direction)
  }

  /** The collision test of `update`: a wall, or any current segment
      including the tail that is about to move away. */
  predicate Collides(head: Cell, body: seq<Cell>) {
    head.x < 0 || head.y < 0 || head.x >= Width || head.y >= Height ||
    Occupies(body, head)
  }

  /** `endGame`: the game stops; the high score and the store are updated
      only for a strictly greater score. */
  function EndGame(w: World): World {
    if w.score > w.highScore then
      w.(gameOver := true, highScore := w.score, saved := Some(w.score))
    else
      w.(gameOver := true)
  }

  /** `update`: one tick. */
  function Step(w: World, d: Draw): (r: World)
    requires w.snake != []
    ensures |r.snake| >= |w.snake|
  {
    var head := NextHead(w);
    if Collides(head, w.snake) then
      EndGame(w)
    else
      var grown := [head] + w.snake;
      if head == w.food then
        w.(snake := grown, score := w.score + FoodPoints, speed := w.speed + SpeedStep,
           food := SpawnFood(d.food), bonus := SpawnBonus(d.lucky, d.bonus))
      else if w.bonus.Some? && head == w.bonus.value then
        w.(snake := grown, score := w.score + BonusPoints, bonus := None)
      else
        w.(snake := grown[..|grown| - 1])
  }

  /** `restartGame`: a fresh game; the high score, the store and the last
      tick time are kept, and the speed is 5 whatever level was chosen. */
  function Restart(w: World, pick: Pick): World {
    w.(snake := [StartCell], direction := None, score := 0, speed := BaseSpeed,
       food := SpawnFood(pick), bonus := None, gameOver := false)
  }

  /** `setLevel`. */
  function SetLevel(w: World, level: string): World {
    if level == "easy" then w.(speed := EasySpeed)
    else if level == "medium" then w.(speed := MediumSpeed)
    else if level == "hard" then w.(speed := HardSpeed)
    else w
  }

  /** The no-reversal rule both input paths implement: a request is refused
      exactly when it is the opposite of the stored direction. */
  function Steer(current: Option<Direction>, requested: Direction): Option<Direction> {
    if current == Some(Opposite(requested)) then current else Some(requested)
  }

  /** `changeDirection` (the on-screen buttons): four independent tests, each
      against the direction the earlier tests may already have set. */
  function ChangeDirection(w: World, dir: string): World {
    var d1 := if dir == "UP" && w.direction != Some(Down) then Some(Up) else w.direction;
    var d2 := if dir == "DOWN" && d1 != Some(Up) then Some(Down) else d1;
    var d3 := if dir == "LEFT" && d2 != Some(Right) then Some(Left) else d2;
    var d4 := if dir == "RIGHT" && d3 != Some(Left) then Some(Right) else d3;
    w.(direction := d4)
  }

  /** The keydown handler: one chain of tests over the key; Enter restarts a
      finished game. `pick` is the food cell the restart spawns. */
  function KeyDown(w: World, key: string, pick: Pick): World {
    if key == "ArrowUp" && w.direction != Some(Down) then w.(direction := Some(Up))
    else if key == "ArrowDown" && w.direction != Some(Up) then w.(direction := Some(Down))
    else if key == "ArrowLeft" && w.direction != Some(Right) then w.(direction := Some(Left))
    else if key == "ArrowRight" && w.direction != Some(Left) then w.(direction := Some(Right))
    else if key == "Enter" && w.gameOver then Restart(w, pick)
    else w
  }

  /** `main`: one animation frame at time `now` (milliseconds). A finished
      game does nothing; a frame too early for the current speed does
      nothing; otherwise the frame time is recorded and the game ticks. */
  function Frame(w: World, now: int, d: Draw): World
    requires w.snake != []
  {
    if w.gameOver then w
    else if (now - w.lastTick) * w.speed < TickBudget then w
    else Step(w.(lastTick := now), d)
  }

  /** The names the two input paths use for the headings. */
  function ButtonDirection(dir: string): Option<Direction> {
    if dir == "UP" then Some(Up)
    else if dir == "DOWN" then Some(Down)
    else if dir == "LEFT" then Some(Left)
    else if dir == "RIGHT" then Some(Right)
    else None
  }

  function ArrowDirection(key: string): Option<Direction> {
    if key == "ArrowUp" then Some(Up)
    else if key == "ArrowDown" then Some(Down)
    else if key == "ArrowLeft" then Some(Left)
    else if key == "ArrowRight" then Some(Right)
    else None
  }

  /** Every input the page can deliver. */
  datatype Event =
    | Tick(now: int, draw: Draw)
    | Key(key: string, pick: Pick)
    | Button(dir: string)
    | Level(level: string)

  function Apply(w: World, e: Event): (r: World)
    requires w.snake != []
    ensures r.snake != []
  {
    match e
    case Tick(now, d) => Frame(w, now, d)
    case Key(key, pick) => KeyDown(w, key, pick)
    case Button(dir) => ChangeDirection(w, dir)
    case Level(level) => SetLevel(w, level)
  }

  function Run(w: World, es: seq<Event>): World
    requires w.snake != []
    decreases |es|
  {
    if es == [] then w else Run(Apply(w, es[0]), es[1..])
  }
}
