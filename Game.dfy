/** The snake game as one object whose fields are the page's globals. Each
    handler updates the fields step by step as the page does, and is proved
    to produce exactly the state the matching function of `Rules` gives. */
module Game {
  import opened Grid
  import Rules
  import Properties

  class SnakeGame {
    var snake: seq<Cell>
    var direction: Option<Direction>
    var food: Cell
    var bonus: Option<Cell>
    var score: int
    var highScore: int
    var gameOver: bool
    /** In tenths of a tick per second. */
    var speed: int
    /** Time (ms) of the last frame that ticked. */
    var lastRenderTime: int
    /** The persisted high score. */
    var saved: Option<int>

    function State(): Rules.World
      reads this
    {
      Rules.World(snake, direction, food, bonus, score, highScore, gameOver,
                  speed, lastRenderTime, saved)
    }

    predicate Valid()
      reads this
    {
      Rules.Valid(State())
    }

    /** Page load: `stored` is what the store holds, `pick` the first food cell. */
    constructor (stored: Option<int>, pick: Pick)
      ensures State() == Rules.Initial(stored, pick)
      ensures Valid()
    {
      snake := [Rules.StartCell];
      direction := None;
      food := SpawnFood(pick);
      bonus := None;
      score := 0;
      highScore := if stored.Some? then stored.value else 0;
      gameOver := false;
      lastRenderTime := 0;
      speed := Rules.BaseSpeed;
      saved := stored;
      Properties.InitialValid(stored, pick);
    }

    /** `update`. */
    method Update(d: Rules.Draw)
      requires Valid()
      modifies this
      ensures State() == Rules.Step(old(State()), d)
      ensures Valid()
    {
      Properties.StepPreservesValid(State(), d);
      var head := snake[0];
      if direction == Some(Up) { head := head.(y := head.y - Box); }
      if direction == Some(Down) { head := head.(y := head.y + Box); }
      if direction == Some(Left) { head := head.(x := head.x - Box); }
      if direction == Some(Right) { head := head.(x := head.x + Box); }
      assert head == Rules.NextHead(State());

      if head.x < 0 || head.y < 0 || head.x >= Width || head.y >= Height ||
         Occupies(snake, head)
      {
        EndGame();
        return;
      }

      snake := [head] + snake;

      if head == food {
        score := score + Rules.FoodPoints;
        speed := speed + Rules.SpeedStep;
        food := SpawnFood(d.food);
        bonus := SpawnBonus(d.lucky, d.bonus);
      } else if bonus.Some? && head == bonus.value {
        score := score + Rules.BonusPoints;
        bonus := None;
      } else {
        snake := snake[..|snake| - 1];
      }
    }

    /** `endGame`. */
    method EndGame()
      requires Valid()
      modifies this
      ensures State() == Rules.EndGame(old(State()))
      ensures Valid()
    {
      gameOver := true;
      if score > highScore {
        highScore := score;
        saved := Some(highScore);
      }
    }

    /** `restartGame`; `pick` is the new food cell. */
    method Restart(pick: Pick)
      modifies this
      ensures State() == Rules.Restart(old(State()), pick)
      ensures Valid()
    {
      snake := [Rules.StartCell];
      direction := None;
      score := 0;
      speed := Rules.BaseSpeed;
      food := SpawnFood(pick);
      bonus := None;
      gameOver := false;
    }

    /** `setLevel`. */
    method SetLevel(level: string)
      requires Valid()
      modifies this
      ensures State() == Rules.SetLevel(old(State()), level)
      ensures Valid()
    {
      if level == "easy" { speed := Rules.EasySpeed; }
      if level == "medium" { speed := Rules.MediumSpeed; }
      if level == "hard" { speed := Rules.HardSpeed; }
    }

    /** `changeDirection`, the on-screen buttons. */
    method ChangeDirection(dir: string)
      requires Valid()
      modifies this
      ensures State() == Rules.ChangeDirection(old(State()), dir)
      ensures Valid()
    {
      if dir == "UP" && direction != Some(Down) { direction := Some(Up); }
      if dir == "DOWN" && direction != Some(Up) { direction := Some(Down); }
      if dir == "LEFT" && direction != Some(Right) { direction := Some(Left); }
      if dir == "RIGHT" && direction != Some(Left) { direction := Some(Right); }
    }

    /** The keydown handler; `pick` is the food cell a restart would spawn. */
    method KeyDown(key: string, pick: Pick)
      requires Valid()
      modifies this
      ensures State() == Rules.KeyDown(old(State()), key, pick)
      ensures Valid()
    {
      if key == "ArrowUp" && direction != Some(Down) { direction := Some(Up); }
      else if key == "ArrowDown" && direction != Some(Up) { direction := Some(Down); }
      else if key == "ArrowLeft" && direction != Some(Right) { direction := Some(Left); }
      else if key == "ArrowRight" && direction != Some(Left) { direction := Some(Right); }
      else if key == "Enter" && gameOver { Restart(pick); }
    }

    /** `main`, one animation frame at time `now` in milliseconds. */
    method Frame(now: int, d: Rules.Draw)
      requires Valid()
      modifies this
      ensures State() == Rules.Frame(old(State()), now, d)
      ensures Valid()
    {
      if gameOver { return; }
      if (now - lastRenderTime) * speed < Rules.TickBudget { return; }
      lastRenderTime := now;
      Update(d);
    }
  }
}
