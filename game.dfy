/** The game object. Its fields are the session state, updated in place by methods
    that follow the source's own steps; each method's contract ties the new state to
    the matching function of module Rules applied to the old state. */
module Game {
  import opened Common
  import opened Grid
  import opened Keys
  import opened Food
  import opened Placement
  import opened GameState
  import Rules
  import Properties

  class SnakeGame {
    /** The loaded configuration; never reassigned. */
    const cfg: Config

    var snake: seq<Pos>
    var direction: Direction
    var nextDirection: Direction
    var score: nat
    var gameSpeed: int
    var highScore: int
    var highScores: map<int, int>   // the persistent store, one entry per level
    var isPlaying: bool
    var isPaused: bool
    var isGameOver: bool
    var foodEaten: bool
    var levelCompleted: bool
    var currentLevel: int
    var unlockedLevels: seq<int>
    var food: Option<Food>
    var obstacles: seq<Pos>
    var obstacleCount: Option<int>
    var foodWeights: FoodWeights

    /** The fields as one value. */
    ghost function Snapshot(): State
      reads this
    {
      State(snake, direction, nextDirection, score, gameSpeed, highScore, highScores,
            isPlaying, isPaused, isGameOver, foodEaten, levelCompleted, currentLevel,
            unlockedLevels, food, obstacles, obstacleCount, foodWeights)
    }

    /** The game invariant, and the shown high score is the stored one. */
    ghost predicate Valid()
      reads this
    {
      Inv(cfg, Snapshot()) && Rules.HighScoreSaved(Snapshot())
    }

    /** Construction with a loaded configuration, followed by the first reset. */
    constructor (config: Config, weights: FoodWeights, count: Option<int>,
                 defaultLevel: Option<int>, stored: map<int, int>, d: Draws)
      requires config.initialSnakeLength >= 1
      requires DrawsInRange(config.gridSize, d)
      ensures Valid()
      ensures Snapshot() == Rules.Reset(config, Initial(config, weights, count, defaultLevel, stored), d)
    {
      cfg := config;
      snake := [];
      direction, nextDirection := Right, Right;
      score := 0;
      gameSpeed := config.initialGameSpeed;
      highScore := 0;
      highScores := stored;
      isPlaying, isPaused, isGameOver, foodEaten, levelCompleted := false, false, false, false, false;
      currentLevel := defaultLevel.GetOr(1);
      unlockedLevels := [1];
      food := None;
      obstacles := [];
      obstacleCount := count;
      foodWeights := weights;
      new;
      ResetGame(d);
    }

    // ----- input and run state -----

    method HandleKeyPress(key: string)
      requires Valid()
      modifies this
      ensures Valid()
      ensures Snapshot() == Rules.KeyPress(old(Snapshot()), key)
    {
      var k := LowerAscii(key);
      if k == "p" {
        if !isGameOver && isPlaying {
          if isPaused { ResumeGame(); } else { PauseGame(); }
        }
        return;
      }
      if !isPlaying { return; }
      if isPaused { return; }
      match KeyDirection(k)
      case None =>
      case Some(dir) =>
        if direction != Opposite(dir) { nextDirection := dir; }
    }

    method SetDirection(dir: Direction)
      requires Valid()
      modifies this
      ensures Valid()
      ensures Snapshot() == Rules.SetDirection(old(Snapshot()), dir)
    {
      if !isPlaying || isPaused { return; }
      if direction != Opposite(dir) { nextDirection := dir; }
    }

    method StartGame()
      modifies this
      ensures Snapshot() == Rules.Start(old(Snapshot()))
      ensures old(Valid()) ==> Valid()
    {
      if isPlaying { return; }
      isPlaying := true;
      isGameOver := false;
    }

    method PauseGame()
      modifies this
      ensures Snapshot() == Rules.Pause(old(Snapshot()))
      ensures old(Valid()) ==> Valid()
    {
      if !isPlaying || isPaused { return; }
      isPaused := true;
    }

    method ResumeGame()
      modifies this
      ensures Snapshot() == Rules.Resume(old(Snapshot()))
      ensures old(Valid()) ==> Valid()
    {
      if !isPlaying || !isPaused { return; }
      isPaused := false;
    }

    method EndGame()
      modifies this
      ensures Snapshot() == Rules.EndGame(old(Snapshot()))
      ensures old(Valid()) ==> Valid()
    {
      isGameOver := true;
      isPlaying := false;
      UpdateHighScore();
    }

    // ----- reset and layout -----

    method ResetGame(d: Draws)
      requires CanReset(cfg, Snapshot()) && DrawsInRange(cfg.gridSize, d)
      modifies this
      ensures Valid()
      ensures Snapshot() == Rules.Reset(cfg, old(Snapshot()), d)
    {
      ClearRound();
      RestoreLevel();
      LayOutLevel(d);
      Properties.ResetEstablishesInv(cfg, old(Snapshot()), d);
      Properties.ResetSavesHighScore(cfg, old(Snapshot()), d);
    }

    /** The level's settings and stored high score; a promotion check on the cleared score. */
    method RestoreLevel()
      modifies this
      ensures Snapshot() == Rules.Restored(cfg, old(Snapshot()))
    {
      ApplyLevelConfig();
      highScore := LoadHighScore();
      UpdateHighScore();
      var _ := CheckLevelUp();
      UpdateHighScore();
    }

    /** Obstacles, the starting body and the first food. */
    method LayOutLevel(d: Draws)
      modifies this
      ensures Snapshot() == Rules.LaidOut(cfg, old(Snapshot()), d)
    {
      SetupLevelElements(d);
      InitializeSnake();
      GenerateFood(d);
    }

    /** The flags, heading and score a new round starts from. */
    method ClearRound()
      modifies this
      ensures Snapshot() == Rules.Cleared(old(Snapshot()))
    {
      ClearPauseHeadingScore();
      ClearRunFlags();
    }

    /** The first four assignments of a reset: unpaused, heading right, score 0. */
    method ClearPauseHeadingScore()
      modifies this
      ensures Snapshot() == old(Snapshot()).(isPaused := false, direction := Right, nextDirection := Right,
                                             score := 0)
    {
      isPaused := false;
      direction := Right;
      nextDirection := Right;
      score := 0;
    }

    /** The next four: not over, not running, nothing eaten, level not completed. */
    method ClearRunFlags()
      modifies this
      ensures Snapshot() == old(Snapshot()).(isGameOver := false, isPlaying := false, foodEaten := false,
                                             levelCompleted := false)
    {
      isGameOver := false;
      isPlaying := false;
      foodEaten := false;
      levelCompleted := false;
    }

    method ApplyLevelConfig()
      modifies this
      ensures Snapshot() == Rules.ApplyLevelConfig(cfg, old(Snapshot()))
    {
      if currentLevel in cfg.levels {
        var lc := cfg.levels[currentLevel];
        gameSpeed := if lc.gameSpeed.Some? && lc.gameSpeed.value != 0 then lc.gameSpeed.value else cfg.initialGameSpeed;
        obstacleCount := Some(lc.obstacleCount.GetOr(0));
        foodWeights := lc.foodWeights.GetOr(PlainWeights);
      } else {
        gameSpeed := cfg.initialGameSpeed;
      }
    }

    method SetupLevelElements(d: Draws)
      modifies this
      ensures Snapshot() == old(Snapshot()).(obstacles :=
                AcceptObstacles(d.obstacleCells, Reserved(cfg), Rules.ObstacleTarget(old(obstacleCount)), []))
    {
      var count := if obstacleCount.Some? then obstacleCount.value else 0;
      obstacles := GenerateObstacles(count, d.obstacleCells);
    }

    /** Obstacle cells by rejection sampling from `draws`: the starting body's cells and
        the portal endpoints are reserved, a cell already held is not added twice. */
    method GenerateObstacles(count: int, draws: seq<Pos>) returns (cells: seq<Pos>)
      ensures cells == AcceptObstacles(draws, Reserved(cfg), count, [])
      ensures Distinct(cells) && |cells| <= Max(count, 0)
      ensures forall c :: c in cells ==> c in draws && c !in Reserved(cfg)
      ensures |cells| < count ==> forall j :: 0 <= j < |draws| ==> draws[j] in Reserved(cfg) || draws[j] in cells
    {
      var n := cfg.initialSnakeLength;
      var startRow := StartRow(cfg.gridSize);
      var startCol := StartCol(cfg.gridSize, n);
      var reserved: set<Pos> := {};
      var i := n - 1;
      while i >= 0
        invariant i < n
        invariant 0 <= n ==> -1 <= i
        invariant n <= 0 ==> i == n - 1
        invariant reserved == set k | i < k < n :: StartCell(cfg.gridSize, n, k)
      {
        ghost var before := set k | i < k < n :: StartCell(cfg.gridSize, n, k);
        assert (set k | i - 1 < k < n :: StartCell(cfg.gridSize, n, k)) == before + {StartCell(cfg.gridSize, n, i)} by {
          forall x | x in before + {StartCell(cfg.gridSize, n, i)}
            ensures x in set k | i - 1 < k < n :: StartCell(cfg.gridSize, n, k)
          {
            if x != StartCell(cfg.gridSize, n, i) {
              var k :| i < k < n && x == StartCell(cfg.gridSize, n, k);
            }
          }
        }
        reserved := reserved + {Pos(startRow, startCol + i)};
        i := i - 1;
      }
      assert reserved == ReservedStart(cfg.gridSize, n) by {
        forall x | x in reserved ensures x in ReservedStart(cfg.gridSize, n) {
          var k :| i < k < n && x == StartCell(cfg.gridSize, n, k);
        }
        forall x | x in ReservedStart(cfg.gridSize, n) ensures x in reserved {
          var k :| 0 <= k < n && x == StartCell(cfg.gridSize, n, k);
        }
      }
      var j := 0;
      while j < |cfg.portals|
        invariant 0 <= j <= |cfg.portals|
        invariant reserved == ReservedStart(cfg.gridSize, n) + PortalCells(cfg.portals[..j])
      {
        assert cfg.portals[..j + 1] == cfg.portals[..j] + [cfg.portals[j]];
        reserved := reserved + {cfg.portals[j].a, cfg.portals[j].b};
        j := j + 1;
      }
      assert cfg.portals[..j] == cfg.portals;
      cells := [];
      var t := 0;
      while |cells| < count && t < |draws|
        invariant 0 <= t <= |draws|
        invariant AcceptObstacles(draws[t..], reserved, count, cells) == AcceptObstacles(draws, reserved, count, [])
      {
        var p := draws[t];
        assert draws[t..][1..] == draws[t + 1..];
        t := t + 1;
        if p in reserved { continue; }
        if p !in cells { cells := cells + [p]; }
      }
      ObstaclesSound(draws, reserved, count);
    }

    /** The starting body, pushed cell by cell from the head's column down to the tail's. */
    method InitializeSnake()
      modifies this
      ensures Snapshot() == old(Snapshot()).(snake := StartingBody(cfg.gridSize, cfg.initialSnakeLength))
    {
      snake := [];
      var n := cfg.initialSnakeLength;
      var startRow := StartRow(cfg.gridSize);
      var startCol := StartCol(cfg.gridSize, n);
      var i := n - 1;
      while i >= 0
        invariant i < n
        invariant 0 <= n ==> -1 <= i
        invariant n <= 0 ==> i == n - 1
        invariant |snake| == n - 1 - i
        invariant forall k :: 0 <= k < |snake| ==> snake[k] == StartCell(cfg.gridSize, n, n - 1 - k)
        invariant Snapshot() == old(Snapshot()).(snake := snake)
      {
        snake := snake + [Pos(startRow, startCol + i)];
        i := i - 1;
      }
      ghost var body := StartingBody(cfg.gridSize, n);
      assert |snake| == |body|;
      assert forall k :: 0 <= k < |body| ==> body[k] == StartCell(cfg.gridSize, n, n - 1 - k);
    }

    /** New food on the first drawn free cell, of the kind the roll picks. */
    method GenerateFood(d: Draws)
      modifies this
      ensures Snapshot() == Rules.Refill(old(Snapshot()), d)
    {
      var cell := DrawFoodCell(d.foodCells);
      match cell
      case None => food := None;
      case Some(p) => food := Some(Food(p, PickFoodType(foodWeights, d.foodRoll)));
    }

    /** The retry loop of food placement: the first draw on neither the body nor an obstacle. */
    method DrawFoodCell(draws: seq<Pos>) returns (cell: Option<Pos>)
      ensures cell == FirstFree(draws, snake, obstacles)
    {
      var t := 0;
      while t < |draws|
        invariant 0 <= t <= |draws|
        invariant FirstFree(draws[t..], snake, obstacles) == FirstFree(draws, snake, obstacles)
      {
        var p := draws[t];
        if !IsPositionOccupied(p) && !IsObstacle(p) {
          return Some(p);
        }
        assert draws[t..][1..] == draws[t + 1..];
        t := t + 1;
      }
      return None;
    }

    /** Some segment has the cell's row and column. */
    predicate IsPositionOccupied(p: Pos)
      reads this
      ensures IsPositionOccupied(p) <==> exists i :: 0 <= i < |snake| && snake[i].row == p.row && snake[i].col == p.col
    {
      p in snake
    }

    /** Some obstacle has the cell's row and column. */
    predicate IsObstacle(p: Pos)
      reads this
      ensures IsObstacle(p) <==> exists i :: 0 <= i < |obstacles| && obstacles[i].row == p.row && obstacles[i].col == p.col
    {
      p in obstacles
    }

    // ----- one tick -----

    /** One tick; returns the level a promotion was scheduled for, if any. */
    method GameLoop(d: Draws) returns (promotion: Option<int>)
      requires Valid() && DrawsInRange(cfg.gridSize, d)
      modifies this
      ensures Valid()
      ensures Snapshot() == Rules.Tick(cfg, old(Snapshot()), d)
      ensures promotion == Rules.TickScheduled(cfg, old(Snapshot()))
    {
      direction := nextDirection;
      MoveSnake();
      var hit := CheckCollision();
      if hit {
        EndGame();
        promotion := None;
      } else {
        promotion := CheckFood(d);
      }
      Properties.TickPreservesInv(cfg, old(Snapshot()), d);
      Properties.TickKeepsHighScoreSaved(cfg, old(Snapshot()), d);
    }

    method MoveSnake()
      requires |snake| >= 1
      modifies this
      ensures Snapshot() == Rules.MoveSnake(old(Snapshot()))
    {
      var head := Step(snake[0], direction);
      snake := [head] + snake;
      if !foodEaten {
        snake := snake[..|snake| - 1];
      }
      foodEaten := false;
    }

    /** Wall, obstacle and self collision of the head, the last scanning the body from index 1. */
    method CheckCollision() returns (hit: bool)
      requires |snake| >= 1
      ensures hit <==> !InGrid(cfg.gridSize, snake[0]) || snake[0] in obstacles ||
                       exists i :: 1 <= i < |snake| && snake[i] == snake[0]
      ensures hit == Rules.Collides(cfg.gridSize, snake, obstacles)
    {
      var head := snake[0];
      if head.row < 0 || head.row >= cfg.gridSize || head.col < 0 || head.col >= cfg.gridSize {
        return true;
      }
      if IsObstacle(head) {
        return true;
      }
      var i := 1;
      while i < |snake|
        invariant 1 <= i <= |snake|
        invariant forall j :: 1 <= j < i ==> snake[j] != head
      {
        if head.row == snake[i].row && head.col == snake[i].col {
          return true;
        }
        i := i + 1;
      }
      assert forall x :: x in snake[1..] ==> exists j :: 1 <= j < |snake| && snake[j] == x;
      return false;
    }

    /** Eating; returns the level a promotion was scheduled for, if any. */
    method CheckFood(d: Draws) returns (promotion: Option<int>)
      requires |snake| >= 1
      modifies this
      ensures Snapshot() == Rules.Eat(cfg, old(Snapshot()), d)
      ensures promotion == Rules.EatScheduled(cfg, old(Snapshot()))
    {
      if food.Some? && snake[0] == food.value.pos {
        var kind := food.value.kind;
        AddFoodScore();
        promotion := CheckLevelUp();
        foodEaten := true;
        GenerateFood(d);
        SpeedUpOnFifty(kind);
      } else {
        promotion := None;
      }
    }

    /** The score for the food under the head; slow food first slows the game down. */
    method AddFoodScore()
      requires |snake| >= 1 && food.Some? && snake[0] == food.value.pos
      modifies this
      ensures Snapshot() == Rules.Scored(cfg, old(Snapshot()))
    {
      var kind := food.value.kind;
      var gain := 10;
      if kind == Big {
        gain := 20;
      } else if kind == Slow {
        gain := 10;
        gameSpeed := Min(gameSpeed + cfg.slowDownStep, cfg.maxSpeed);
      }
      score := score + gain;
      UpdateHighScore();
    }

    /** The speed-up after eating anything but slow food onto a multiple of 50. */
    method SpeedUpOnFifty(kind: FoodType)
      modifies this
      ensures Snapshot() == Rules.SpeedUp(cfg, old(Snapshot()), kind)
    {
      if score % 50 == 0 && kind != Slow {
        gameSpeed := Max(gameSpeed - cfg.speedStep, cfg.minSpeed);
      }
    }

    // ----- scores -----

    function LoadHighScore(): (stored: int)
      reads this
      ensures stored == Rules.LoadHighScore(Snapshot())
      ensures Valid() ==> stored == highScore
    {
      if currentLevel in highScores then highScores[currentLevel] else 0
    }

    method SaveHighScore()
      modifies this
      ensures Snapshot() == old(Snapshot()).(highScores := old(highScores)[currentLevel := highScore])
      ensures LoadHighScore() == highScore
    {
      highScores := highScores[currentLevel := highScore];
    }

    method UpdateHighScore()
      modifies this
      ensures Snapshot() == Rules.UpdateHighScore(old(Snapshot()))
    {
      if score > highScore {
        highScore := score;
        SaveHighScore();
      }
    }

    // ----- levels -----

    function IsLevelUnlocked(level: int): (unlocked: bool)
      reads this
      ensures Valid() && level == 1 ==> unlocked
    {
      level in unlockedLevels
    }

    /** Returns the level a promotion was scheduled for, if any. */
    method CheckLevelUp() returns (promotion: Option<int>)
      modifies this
      ensures Snapshot() == Rules.CheckLevelUp(cfg, old(Snapshot()))
      ensures promotion == Rules.Scheduled(cfg, old(Snapshot()))
    {
      var next := currentLevel + 1;
      if next in LevelUpScores && LevelUpScores[next] != 0 && score >= LevelUpScores[next] {
        if next in cfg.levels && !levelCompleted {
          levelCompleted := true;
          PauseGame();
          return Some(next);
        }
      }
      return None;
    }

    method UnlockNextLevel()
      modifies this
      ensures Snapshot() == Rules.UnlockNextLevel(cfg, old(Snapshot()))
      ensures old(Valid()) ==> Valid()
    {
      var next := currentLevel + 1;
      if next in cfg.levels && next !in unlockedLevels {
        unlockedLevels := unlockedLevels + [next];
      }
      if old(Valid()) {
        Properties.UnlockKeepsLevelsOk(cfg, old(Snapshot()));
      }
    }

    method SwitchLevel(level: int, d: Draws)
      requires Valid() && DrawsInRange(cfg.gridSize, d)
      modifies this
      ensures Valid()
      ensures Snapshot() == Rules.SwitchLevel(cfg, old(Snapshot()), level, d)
    {
      if level in cfg.levels && IsLevelUnlocked(level) {
        currentLevel := level;
        levelCompleted := false;
        ResetGame(d);
      }
    }

    method SwitchToNextLevel(next: int, d: Draws)
      requires Valid() && DrawsInRange(cfg.gridSize, d)
      modifies this
      ensures Valid()
      ensures Snapshot() == Rules.SwitchToNextLevel(cfg, old(Snapshot()), next, d)
    {
      ghost var s0 := Snapshot();
      ghost var unlocked := if next in unlockedLevels then unlockedLevels else unlockedLevels + [next];
      currentLevel := next;
      levelCompleted := false;
      if next !in unlockedLevels {
        Properties.AppendKeepsLevelsOk(unlockedLevels, next);
        unlockedLevels := unlockedLevels + [next];
      }
      assert Snapshot() == s0.(currentLevel := next, levelCompleted := false, unlockedLevels := unlocked);
      ResetGame(d);
    }

    method Celebrate()
      modifies this
      ensures Snapshot() == Rules.Celebrate(cfg, old(Snapshot()))
      ensures old(Valid()) ==> Valid()
    {
      isPaused := true;
      levelCompleted := true;
      UnlockNextLevel();
    }

    /** The delayed end of a promotion (the timer callback), with the undefined timer
        routine that resuming calls taken as doing nothing. */
    method CompleteLevelTransition(next: int, d: Draws)
      requires Valid() && DrawsInRange(cfg.gridSize, d)
      modifies this
      ensures Valid()
      ensures Snapshot() == Rules.CompleteTransition(cfg, old(Snapshot()), next, d)
    {
      ResumeGame();
      SwitchToNextLevel(next, d);
      Celebrate();
    }
  }
}
