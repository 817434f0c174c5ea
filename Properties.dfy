/** What the handlers of `Rules` do to the game state, one lemma per rule. */
module Properties {
  import opened Grid
  import opened Rules

  // ----- one tick -------------------------------------------------------

  /** A tick whose head hits a wall or any current segment (the tail
      included) ends the game and changes nothing else but the high score. */
  lemma CrashEndsGame(w: World, d: Draw)
    requires w.snake != []
    requires var h := NextHead(w);
      h.x < 0 || h.y < 0 || h.x >= Width || h.y >= Height || h in w.snake
    ensures var r := Step(w, d);
      && r.gameOver
      && r.snake == w.snake && r.score == w.score && r.speed == w.speed
      && r.food == w.food && r.bonus == w.bonus && r.direction == w.direction
      && r.highScore == (if w.score > w.highScore then w.score else w.highScore)
  {
  }

  /** The converse: a running game ends in a tick only by a collision. */
  lemma GameEndsOnlyByCrash(w: World, d: Draw)
    requires w.snake != []
    ensures Step(w, d).gameOver <==>
      (w.gameOver || !InBoard(NextHead(w)) || NextHead(w) in w.snake)
  {
  }

  /** A plain move: the head is pushed, the tail popped, nothing else moves. */
  lemma PlainMove(w: World, d: Draw)
    requires w.snake != []
    requires var h := NextHead(w);
      InBoard(h) && h !in w.snake && h != w.food && w.bonus != Some(h)
    ensures var r := Step(w, d);
      && |r.snake| == |w.snake|
      && r == w.(snake := [NextHead(w)] + w.snake[..|w.snake| - 1])
  {
  }

  /** Eating the food: one more segment, one more point, 0.2 ticks/s faster,
      a new food cell on the lattice and a re-rolled bonus. */
  lemma EatFood(w: World, d: Draw)
    requires w.snake != []
    requires var h := NextHead(w); InBoard(h) && h !in w.snake && h == w.food
    ensures var r := Step(w, d);
      && r.snake == [NextHead(w)] + w.snake
      && |r.snake| == |w.snake| + 1
      && r.score == w.score + 1
      && r.speed == w.speed + 2
      && r.food.x % Box == 0 && 0 <= r.food.x <= 380
      && r.food.y % Box == 0 && 0 <= r.food.y <= 380
      && r.food == SpawnFood(d.food)
      && r.bonus == SpawnBonus(d.lucky, d.bonus)
      && (r.bonus.Some? <==> d.lucky)
      && r.gameOver == w.gameOver && r.direction == w.direction && r.highScore == w.highScore
  {
  }

  /** Eating the bonus (only when the head is not on the food): five points,
      the bonus is gone, the food stays. The tail is not popped on this
      branch, so the snake grows by one segment. */
  lemma EatBonus(w: World, d: Draw)
    requires w.snake != []
    requires var h := NextHead(w);
      InBoard(h) && h !in w.snake && h != w.food && w.bonus == Some(h)
    ensures var r := Step(w, d);
      && r == w.(snake := [NextHead(w)] + w.snake, score := w.score + 5, bonus := None)
      && |r.snake| == |w.snake| + 1
  {
  }

  /** Food wins over a bonus lying on the same cell. */
  lemma FoodBeforeBonus(w: World, d: Draw)
    requires w.snake != []
    requires var h := NextHead(w);
      InBoard(h) && h !in w.snake && h == w.food && w.bonus == Some(h)
    ensures Step(w, d).score == w.score + 1
    ensures Step(w, d).bonus == SpawnBonus(d.lucky, d.bonus)
  {
  }

  /** With no direction pressed the head does not move, so it lies on the
      body and the first tick ends the game. */
  lemma NoDirectionEndsGame(w: World, d: Draw)
    requires w.snake != [] && w.direction == None
    ensures Step(w, d) == EndGame(w)
    ensures Step(w, d).gameOver
  {
  }

  /** Moving into the cell the tail is about to leave is fatal too. */
  lemma TailCellIsFatal(w: World, d: Draw)
    requires w.snake != [] && NextHead(w) == w.snake[|w.snake| - 1]
    ensures Step(w, d).gameOver && Step(w, d).snake == w.snake
  {
  }

  /** Within a game the score never goes down. */
  lemma ScoreNeverDecreases(w: World, d: Draw)
    requires w.snake != []
    ensures w.score <= Step(w, d).score <= w.score + 5
  {
  }

  // ----- the invariant --------------------------------------------------

  // PushHead, DropTail and the asserts of StepPreservesValid set out the
  // argument for a reader; the verifier also finds it unaided.

  lemma PushHead(s: seq<Cell>, h: Cell)
    requires s != [] && AllOnGrid(s) && Distinct(s) && Connected(s)
    requires OnGrid(h) && h !in s && Neighbours(h, s[0])
    ensures AllOnGrid([h] + s) && Distinct([h] + s) && Connected([h] + s)
  {
    var t := [h] + s;
    forall i, j | 0 <= i < j < |t| ensures t[i] != t[j] {
      if i == 0 {
        assert t[j] == s[j - 1];
      }
    }
  }

  lemma DropTail(s: seq<Cell>)
    requires |s| >= 2 && AllOnGrid(s) && Distinct(s) && Connected(s)
    ensures AllOnGrid(s[..|s| - 1]) && Distinct(s[..|s| - 1]) && Connected(s[..|s| - 1])
  {
  }

  /** Every tick keeps the snake on the board, free of self-overlap and
      connected, and keeps food and bonus on the lattice. */
  lemma StepPreservesValid(w: World, d: Draw)
    requires Valid(w)
    ensures Valid(Step(w, d))
  {
    var h := NextHead(w);
    if !Collides(h, w.snake) {
      assert w.direction.Some?;
      assert Aligned(w.snake[0]);
      assert OnGrid(h);
      PushHead(w.snake, h);
      var grown := [h] + w.snake;
      if h != w.food && !(w.bonus.Some? && h == w.bonus.value) {
        DropTail(grown);
        assert grown[..|grown| - 1] == Step(w, d).snake;
      }
    }
  }

  lemma InitialValid(stored: Option<int>, pick: Pick)
    ensures Valid(Initial(stored, pick))
  {
  }

  lemma EventPreservesValid(w: World, e: Event)
    requires Valid(w)
    ensures Valid(Apply(w, e))
  {
    match e
    case Tick(now, d) =>
      if !w.gameOver && (now - w.lastTick) * w.speed >= TickBudget {
        StepPreservesValid(w.(lastTick := now), d);
      }
    case Key(key, pick) =>
    case Button(dir) =>
    case Level(level) =>
  }

  /** Any sequence of ticks, key presses, button presses and level changes
      from a valid state ends in a valid state. */
  lemma {:induction false} RunPreservesValid(w: World, es: seq<Event>)
    requires Valid(w)
    ensures Valid(Run(w, es))
    decreases |es|
  {
    if es != [] {
      EventPreservesValid(w, es[0]);
      RunPreservesValid(Apply(w, es[0]), es[1..]);
    }
  }

  /** The high score never goes down, whatever the page delivers. */
  lemma {:induction false} HighScoreNeverDecreases(w: World, es: seq<Event>)
    requires w.snake != []
    ensures Run(w, es).highScore >= w.highScore
    decreases |es|
  {
    if es != [] {
      HighScoreNeverDecreases(Apply(w, es[0]), es[1..]);
    }
  }

  // ----- input ----------------------------------------------------------

  /** Asking for the exact opposite of the stored direction leaves it. */
  lemma SteerRefusesReversal(current: Option<Direction>, requested: Direction)
    requires current == Some(Opposite(requested))
    ensures Steer(current, requested) == current
  {
  }

  /** Any other request is taken as given. */
  lemma SteerAccepts(current: Option<Direction>, requested: Direction)
    requires current != Some(Opposite(requested))
    ensures Steer(current, requested) == Some(requested)
  {
  }

  /** The button handler is the no-reversal rule on one named heading, and
      ignores any other name; only `direction` changes. */
  lemma ChangeDirectionSteers(w: World, dir: string)
    ensures ChangeDirection(w, dir) ==
      if ButtonDirection(dir).Some? then w.(direction := Steer(w.direction, ButtonDirection(dir).value))
      else w
  {
  }

  /** The keydown handler: arrows follow the no-reversal rule, Enter restarts
      a finished game only, any other key does nothing. */
  lemma KeyDownSteers(w: World, key: string, pick: Pick)
    ensures ArrowDirection(key).Some? ==>
      KeyDown(w, key, pick) == w.(direction := Steer(w.direction, ArrowDirection(key).value))
    ensures key == "Enter" ==>
      KeyDown(w, key, pick) == if w.gameOver then Restart(w, pick) else w
    ensures ArrowDirection(key).None? && key != "Enter" ==> KeyDown(w, key, pick) == w
  {
  }

  /** The rule checks the stored (pending) direction, not the heading the
      last tick used: two presses inside one tick turn a snake moving right
      back onto its own neck, and the next tick ends the game. */
  lemma TwoPressesReverse(w: World, d: Draw)
    requires |w.snake| >= 2 && w.direction == Some(Right)
    requires w.snake[0] == Move(w.snake[1], Some(Right))
    ensures var w2 := ChangeDirection(ChangeDirection(w, "UP"), "LEFT");
      w2.direction == Some(Left) && Step(w2, d).gameOver
  {
  }

  // ----- end, restart, level --------------------------------------------

  /** `endGame` keeps the larger of the two scores and writes the store only
      on a strictly greater score. */
  lemma EndGameKeepsBest(w: World)
    ensures var r := EndGame(w);
      && r.gameOver
      && r.highScore == (if w.score > w.highScore then w.score else w.highScore)
      && r.highScore >= w.score && r.highScore >= w.highScore
      && (r.saved != w.saved ==> w.score > w.highScore)
      && (w.score > w.highScore ==> r.saved == Some(w.score))
      && r == w.(gameOver := true, highScore := r.highScore, saved := r.saved)
  {
  }

  lemma RestartResets(w: World, pick: Pick)
    ensures var r := Restart(w, pick);
      && r.snake == [Cell(180, 200)] && r.direction == None && r.score == 0
      && r.speed == 50 && r.bonus == None && !r.gameOver && OnGrid(r.food)
      && r.highScore == w.highScore && r.saved == w.saved
      && Valid(r)
  {
  }

  /** The chosen level does not survive a restart. */
  lemma RestartIgnoresLevel(w: World, level: string, pick: Pick)
    ensures Restart(SetLevel(w, level), pick) == Restart(w, pick)
  {
  }

  lemma SetLevelSpeeds(w: World, level: string)
    ensures SetLevel(w, level) == w.(speed := SetLevel(w, level).speed)
    ensures SetLevel(w, level).speed ==
      if level == "easy" then 50
      else if level == "medium" then 80
      else if level == "hard" then 120
      else w.speed
  {
  }

  // ----- scheduler ------------------------------------------------------

  /** Once the game is over, frames change nothing. */
  lemma FrameIdleWhenOver(w: World, now: int, d: Draw)
    requires w.snake != [] && w.gameOver
    ensures Frame(w, now, d) == w
  {
  }

  lemma MulMono(a: real, b: real, k: real)
    requires k > 0.0
    ensures a < b <==> a * k < b * k
  {
  }

  /** The integer throttle test in milliseconds and tenths is the page's
      test "fewer than 1 / speed seconds since the last tick". */
  lemma ThrottleInSeconds(elapsed: int, speed: int)
    requires speed > 0
    ensures elapsed * speed < TickBudget <==>
      (elapsed as real) / 1000.0 < 1.0 / ((speed as real) / 10.0)
  {
    var e := elapsed as real;
    var s := speed as real;
    MulMono(e / 1000.0, 1.0 / (s / 10.0), 1000.0 * s);
    assert (e / 1000.0) * (1000.0 * s) == e * s;
    assert (1.0 / (s / 10.0)) * (1000.0 * s) == 10000.0;
    assert (elapsed * speed) as real == e * s;
  }

  /** A running game ticks exactly when at least 1 / speed seconds (speed in
      ticks per second) have passed since the last tick. */
  lemma FrameThrottles(w: World, now: int, d: Draw)
    requires w.snake != [] && !w.gameOver && w.speed > 0
    ensures Frame(w, now, d) ==
      if ((now - w.lastTick) as real) / 1000.0 < 1.0 / ((w.speed as real) / 10.0) then w
      else Step(w.(lastTick := now), d)
  {
    ThrottleInSeconds(now - w.lastTick, w.speed);
  }

  // ----- two concrete games ---------------------------------------------

  /** From the start cell, one tick to the right reaches (200, 200) without
      growing, provided the food lies elsewhere. */
  lemma FirstMoveRight(stored: Option<int>, pick: Pick, d: Draw)
    requires SpawnFood(pick) != Cell(200, 200)
    ensures var w := Initial(stored, pick).(direction := Some(Right));
      Step(w, d).snake == [Cell(200, 200)] && !Step(w, d).gameOver
  {
  }

  /** A snake in the top-left corner heading left leaves the board. */
  lemma LeftFromCorner(w: World, d: Draw)
    requires w.snake == [Cell(0, 0)] && w.direction == Some(Left)
    ensures Step(w, d).gameOver
  {
  }
}
