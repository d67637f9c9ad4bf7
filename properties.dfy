/** Properties of the rules: input never reverses the snake, pausing is idempotent,
    ticks keep the invariant and grow the body one tick late, speed stays clamped,
    promotion fires once per level, and the unlocked list only grows. */
module Properties {
  import opened Common
  import opened Grid
  import opened Keys
  import opened Food
  import opened Placement
  import opened GameState
  import opened Rules

  // ----- input and run state -----

  /** A heading request changes nothing but the pending heading, does nothing while
      stopped or paused, and never makes the pending heading reverse the committed one. */
  lemma SetDirectionNeverReverses(s: State, dir: Direction)
    requires s.nextDirection != Opposite(s.direction)
    ensures var t := SetDirection(s, dir);
      t == s.(nextDirection := t.nextDirection) &&
      t.nextDirection != Opposite(s.direction) &&
      (!s.isPlaying || s.isPaused ==> t == s) &&
      (s.isPlaying && !s.isPaused && dir != Opposite(s.direction) ==> t.nextDirection == dir)
  {
  }

  /** An arrow or W, A, S, D key, in either case, acts exactly like the matching heading request. */
  lemma KeyPressMatchesSetDirection(s: State, key: string, dir: Direction)
    requires KeyDirection(LowerAscii(key)) == Some(dir)
    ensures KeyPress(s, key) == SetDirection(s, dir)
  {
    assert LowerAscii(key) != "p";
  }

  /** P toggles pause in a running game that is not over, and is ignored otherwise. */
  lemma PauseKeyToggles(s: State, key: string)
    requires LowerAscii(key) == "p"
    ensures s.isPlaying && !s.isGameOver ==> KeyPress(s, key) == s.(isPaused := !s.isPaused)
    ensures !s.isPlaying || s.isGameOver ==> KeyPress(s, key) == s
  {
  }

  /** "W" and "ArrowUp" both ask for up. */
  lemma UpKeysScenario(s: State)
    ensures KeyPress(s, "W") == SetDirection(s, Up)
    ensures KeyPress(s, "ArrowUp") == SetDirection(s, Up)
  {
    assert LowerAscii("W") == "w";
    assert LowerAscii("ArrowUp") == "arrowup";
    KeyPressMatchesSetDirection(s, "W", Up);
    KeyPressMatchesSetDirection(s, "ArrowUp", Up);
  }

  /** Pausing twice is pausing once; likewise resuming and starting. */
  lemma RunStateIdempotent(s: State)
    ensures Pause(Pause(s)) == Pause(s)
    ensures Resume(Resume(s)) == Resume(s)
    ensures Start(Start(s)) == Start(s)
  {
  }

  /** Resuming undoes a pause of a running game; starting a running game does nothing. */
  lemma PauseResumeRoundTrip(s: State)
    ensures s.isPlaying && !s.isPaused ==> Pause(s).isPaused && Resume(Pause(s)) == s
    ensures s.isPlaying ==> Start(s) == s
  {
  }

  // ----- ticks -----

  /** After a tick the committed heading is never the reverse of the previous one. */
  lemma TickNeverReverses(cfg: Config, s: State, d: Draws)
    requires Inv(cfg, s)
    ensures Tick(cfg, s, d).direction != Opposite(s.direction)
  {
  }

  /** Growth lags one tick: the tick that eats leaves the length as it was (or one more,
      for food eaten the tick before) and sets the flag; the following tick adds the segment. */
  lemma GrowthLagsOneTick(cfg: Config, s: State, d1: Draws, d2: Draws)
    requires |s.snake| >= 1
    requires !Collides(cfg.gridSize, Moved(s).snake, Moved(s).obstacles) && Eating(Moved(s))
    ensures var t := Tick(cfg, s, d1);
      |t.snake| == |s.snake| + (if s.foodEaten then 1 else 0) && t.foodEaten &&
      |Tick(cfg, t, d2).snake| == |t.snake| + 1
  {
  }

  /** A head that leaves the field ends the game at once, score kept. */
  lemma WallIsFatal(cfg: Config, s: State, d: Draws)
    requires |s.snake| >= 1
    requires !InGrid(cfg.gridSize, Step(s.snake[0], s.nextDirection))
    ensures var t := Tick(cfg, s, d);
      t.isGameOver && !t.isPlaying && t.score == s.score && t.highScore >= s.score
  {
  }

  /** Running into the wall, an obstacle or the body ends the game; without a collision
      the tick leaves the game-over flag alone. */
  lemma CollisionIsFatal(cfg: Config, s: State, d: Draws)
    requires |s.snake| >= 1
    ensures var m := Moved(s);
      Collides(cfg.gridSize, m.snake, m.obstacles) ==> Tick(cfg, s, d).isGameOver && !Tick(cfg, s, d).isPlaying
    ensures var m := Moved(s);
      !Collides(cfg.gridSize, m.snake, m.obstacles) ==>
        Tick(cfg, s, d).isGameOver == s.isGameOver && Tick(cfg, s, d).isPlaying == s.isPlaying
  {
  }

  /** Self-collision is checked after the tail moves on: stepping into the cell the
      tail just left is legal when that cell is on the field and free of obstacles. */
  lemma VacatedTailIsSafe(cfg: Config, s: State)
    requires |s.snake| >= 2 && Distinct(s.snake) && !s.foodEaten
    requires Step(s.snake[0], s.nextDirection) == s.snake[|s.snake| - 1]
    requires InGrid(cfg.gridSize, s.snake[|s.snake| - 1]) && s.snake[|s.snake| - 1] !in s.obstacles
    ensures !Collides(cfg.gridSize, Moved(s).snake, Moved(s).obstacles)
  {
    var m := Moved(s);
    assert m.snake[1..] == s.snake[..|s.snake| - 1];
  }

  /** A tick without a collision keeps the body free of repeated cells: the new head
      is not on the kept body, which is a prefix of the old one. */
  lemma TickKeepsBodyDistinct(cfg: Config, s: State, d: Draws)
    requires |s.snake| >= 1 && Distinct(s.snake)
    requires !Collides(cfg.gridSize, Moved(s).snake, Moved(s).obstacles)
    ensures Distinct(Tick(cfg, s, d).snake)
  {
    var m := Moved(s);
    assert m.snake[1..] <= s.snake;
    assert m.snake == [m.snake[0]] + m.snake[1..];
  }

  /** The tick interval stays between its bounds when it starts there and both steps
      are non-negative. */
  lemma TickKeepsSpeedInRange(cfg: Config, s: State, d: Draws)
    requires |s.snake| >= 1
    requires cfg.minSpeed <= s.gameSpeed <= cfg.maxSpeed
    requires cfg.speedStep >= 0 && cfg.slowDownStep >= 0
    ensures cfg.minSpeed <= Tick(cfg, s, d).gameSpeed <= cfg.maxSpeed
  {
    var m := Moved(s);
    if !Collides(cfg.gridSize, m.snake, m.obstacles) && Eating(m) {
      EatScoresAndPaces(cfg, m, d);
    }
  }

  /** Eating adds the food's points; slow food lengthens the interval up to the maximum,
      other food shortens it, down to the minimum, when the new score is a multiple of 50. */
  lemma EatScoresAndPaces(cfg: Config, s: State, d: Draws)
    requires |s.snake| >= 1 && Eating(s)
    ensures var t := Eat(cfg, s, d);
      t.score == s.score + FoodScore(s.food.value.kind) &&
      (s.food.value.kind == Slow ==> t.gameSpeed == Min(s.gameSpeed + cfg.slowDownStep, cfg.maxSpeed)) &&
      (s.food.value.kind != Slow ==>
         t.gameSpeed == if t.score % 50 == 0 then Max(s.gameSpeed - cfg.speedStep, cfg.minSpeed) else s.gameSpeed)
  {
    var scored := Scored(cfg, s);
    var refilled := Refill(Fed(cfg, scored), d);
    assert refilled.score == scored.score && refilled.gameSpeed == scored.gameSpeed;
  }

  /** A head on the cell of food it did not eat this tick lies elsewhere, so the food
      stays off the moved body. */
  lemma UneatenFoodOffBody(cfg: Config, s: State)
    requires Inv(cfg, s) && s.food.Some?
    requires Moved(s).snake[0] != s.food.value.pos
    ensures s.food.value.pos !in Moved(s).snake
  {
    var m := Moved(s);
    assert m.snake[1..] <= s.snake;
    assert m.snake == [m.snake[0]] + m.snake[1..];
  }

  /** A head that collides is not on the food: the food is on the field, off obstacles
      and off the body the head could run into. */
  lemma CollisionMissesFood(cfg: Config, s: State)
    requires Inv(cfg, s) && s.food.Some?
    requires Collides(cfg.gridSize, Moved(s).snake, Moved(s).obstacles)
    ensures Moved(s).snake[0] != s.food.value.pos
  {
    var m := Moved(s);
    assert m.snake[1..] <= s.snake;
  }

  /** Fresh food after eating is on a free drawn cell. */
  lemma RefilledFoodOffBody(cfg: Config, m: State, d: Draws)
    requires |m.snake| >= 1 && Eating(m) && DrawsInRange(cfg.gridSize, d)
    ensures var t := Eat(cfg, m, d);
      t.food.Some? ==> InGrid(cfg.gridSize, t.food.value.pos) &&
                       t.food.value.pos !in t.obstacles && t.food.value.pos !in t.snake
  {
    var fed := Fed(cfg, Scored(cfg, m));
    assert fed.snake == m.snake && fed.obstacles == m.obstacles;
    assert Eat(cfg, m, d).food == PlaceFood(fed, d);
  }

  /** After a tick the food, if any, is on the field and off the obstacles and the body. */
  lemma FoodStaysOffBody(cfg: Config, s: State, d: Draws)
    requires Inv(cfg, s) && DrawsInRange(cfg.gridSize, d)
    ensures var t := Tick(cfg, s, d);
      t.food.Some? ==> InGrid(cfg.gridSize, t.food.value.pos) &&
                       t.food.value.pos !in t.obstacles && t.food.value.pos !in t.snake
  {
    var m := Moved(s);
    if Collides(cfg.gridSize, m.snake, m.obstacles) {
      if s.food.Some? {
        CollisionMissesFood(cfg, s);
        UneatenFoodOffBody(cfg, s);
      }
    } else if Eating(m) {
      RefilledFoodOffBody(cfg, m, d);
    } else if s.food.Some? {
      UneatenFoodOffBody(cfg, s);
    }
  }

  /** Every tick keeps the invariant. */
  lemma TickPreservesInv(cfg: Config, s: State, d: Draws)
    requires Inv(cfg, s) && DrawsInRange(cfg.gridSize, d)
    ensures Inv(cfg, Tick(cfg, s, d))
  {
    FoodStaysOffBody(cfg, s, d);
  }

  /** The first tick of a default game with no food near: the head moves right, the tail goes. */
  lemma FirstTickScenario(s: State, d: Draws)
    requires s.snake == StartingBody(20, 3) && s.nextDirection == Right && !s.foodEaten
    requires s.obstacles == [] && (s.food.None? || s.food.value.pos != Pos(10, 12))
    ensures var t := Tick(DefaultConfig, s, d);
      t.snake == [Pos(10, 12), Pos(10, 11), Pos(10, 10)] && t.isGameOver == s.isGameOver && t.score == s.score
  {
    DefaultStartingBody();
    var m := Moved(s);
    assert m.snake == [Pos(10, 12), Pos(10, 11), Pos(10, 10)];
    assert !Collides(20, m.snake, m.obstacles);
  }

  // ----- promotion -----

  /** Promotion marks the level completed and pauses a running game; once marked, the
      condition is false, so repeated checks above the threshold do nothing. */
  lemma LevelUpFiresOnce(cfg: Config, s: State)
    ensures LevelUpDue(cfg, s) ==>
      CheckLevelUp(cfg, s).levelCompleted && !LevelUpDue(cfg, CheckLevelUp(cfg, s)) &&
      (s.isPlaying ==> CheckLevelUp(cfg, s).isPaused)
    ensures !LevelUpDue(cfg, s) ==> CheckLevelUp(cfg, s) == s
    ensures s.levelCompleted ==> CheckLevelUp(cfg, s) == s
  {
  }

  /** A run of ticks, one set of draws per tick. */
  function RunTicks(cfg: Config, s: State, ds: seq<Draws>): (t: State)
    requires |s.snake| >= 1
    ensures |t.snake| >= 1
    decreases |ds|
  {
    if ds == [] then s else RunTicks(cfg, Tick(cfg, s, ds[0]), ds[1..])
  }

  /** No tick of the run schedules a promotion. */
  predicate NoPromotion(cfg: Config, s: State, ds: seq<Draws>)
    requires |s.snake| >= 1
    decreases |ds|
  {
    ds == [] || (TickScheduled(cfg, s) == None && NoPromotion(cfg, Tick(cfg, s, ds[0]), ds[1..]))
  }

  /** Once a level is completed, no number of further ticks promotes again, and the
      level stays completed. */
  lemma {:induction false} CompletedLevelNeverRepromotes(cfg: Config, s: State, ds: seq<Draws>)
    requires |s.snake| >= 1 && s.levelCompleted
    ensures NoPromotion(cfg, s, ds)
    ensures RunTicks(cfg, s, ds).levelCompleted && RunTicks(cfg, s, ds).currentLevel == s.currentLevel
    decreases |ds|
  {
    if ds != [] {
      var t := Tick(cfg, s, ds[0]);
      assert t.levelCompleted && t.currentLevel == s.currentLevel;
      assert TickScheduled(cfg, s) == None;
      CompletedLevelNeverRepromotes(cfg, t, ds[1..]);
    }
  }

  /** The thresholds are positive, so a reset (score 0) never promotes. */
  lemma ResetNeverPromotes(cfg: Config, s: State)
    requires s.score == 0
    ensures !LevelUpDue(cfg, s)
  {
    var next := s.currentLevel + 1;
    if next in LevelUpScores {
      assert next == 2 || next == 3;
    }
  }

  // ----- levels -----

  /** Appending a level not yet present keeps the unlocked list sound. */
  lemma AppendKeepsLevelsOk(levels: seq<int>, x: int)
    requires LevelsOk(levels) && x !in levels
    ensures LevelsOk(levels + [x])
  {
    var l := levels + [x];
    forall i, j | 0 <= i < j < |l| ensures l[i] != l[j] {
      if j == |levels| {
        assert l[i] == levels[i];
      }
    }
  }

  /** Unlocking only ever appends a configured level not yet present, and always makes
      the configured next level available. */
  lemma UnlockKeepsLevelsOk(cfg: Config, s: State)
    requires LevelsOk(s.unlockedLevels)
    ensures var t := UnlockNextLevel(cfg, s);
      LevelsOk(t.unlockedLevels) && s.unlockedLevels <= t.unlockedLevels &&
      (s.currentLevel + 1 in cfg.levels ==> s.currentLevel + 1 in t.unlockedLevels) &&
      t == s.(unlockedLevels := t.unlockedLevels)
  {
    if s.currentLevel + 1 in cfg.levels && s.currentLevel + 1 !in s.unlockedLevels {
      AppendKeepsLevelsOk(s.unlockedLevels, s.currentLevel + 1);
    }
  }

  /** A reset clears the round, keeps the level and the unlocked list, lays out the
      starting body and reloads the level's high score. */
  lemma ResetOutcome(cfg: Config, s: State, d: Draws)
    ensures var t := Reset(cfg, s, d);
      t.score == 0 && !t.isPlaying && !t.isPaused && !t.isGameOver && !t.foodEaten &&
      !t.levelCompleted && t.direction == Right && t.nextDirection == Right &&
      t.snake == StartingBody(cfg.gridSize, cfg.initialSnakeLength) &&
      t.currentLevel == s.currentLevel && t.unlockedLevels == s.unlockedLevels &&
      t.highScore == Max(LoadHighScore(s), 0)
  {
    var cleared := Cleared(s);
    var configured := ApplyLevelConfig(cfg, cleared);
    var loaded := configured.(highScore := LoadHighScore(configured));
    ResetNeverPromotes(cfg, UpdateHighScore(loaded));
  }

  /** A reset from a sound unlock list establishes the invariant. */
  lemma ResetEstablishesInv(cfg: Config, s: State, d: Draws)
    requires CanReset(cfg, s) && DrawsInRange(cfg.gridSize, d)
    ensures Inv(cfg, Reset(cfg, s, d))
  {
    ResetOutcome(cfg, s, d);
    var t := Reset(cfg, s, d);
    var checked := Restored(cfg, Cleared(s));
    ObstaclesSound(d.obstacleCells, Reserved(cfg), ObstacleTarget(checked.obstacleCount));
    assert t.obstacles == AcceptObstacles(d.obstacleCells, Reserved(cfg), ObstacleTarget(checked.obstacleCount), []);
  }

  /** Switching to a level that is undefined or locked is ignored; otherwise the game
      is reset on that level. */
  lemma SwitchLevelGuarded(cfg: Config, s: State, level: int, d: Draws)
    ensures !(level in cfg.levels && level in s.unlockedLevels) ==> SwitchLevel(cfg, s, level, d) == s
    ensures level in cfg.levels && level in s.unlockedLevels ==>
      SwitchLevel(cfg, s, level, d).currentLevel == level && SwitchLevel(cfg, s, level, d).score == 0 &&
      SwitchLevel(cfg, s, level, d).unlockedLevels == s.unlockedLevels
  {
    if level in cfg.levels && level in s.unlockedLevels {
      ResetOutcome(cfg, s.(currentLevel := level, levelCompleted := false), d);
    }
  }

  /** Moving on to `next` lands on it with a fresh round, and `next` is unlocked. */
  lemma SwitchToNextLevelOutcome(cfg: Config, s: State, next: int, d: Draws)
    requires LevelsOk(s.unlockedLevels)
    ensures var t := SwitchToNextLevel(cfg, s, next, d);
      t.currentLevel == next && t.score == 0 && !t.isPlaying && !t.isPaused && !t.isGameOver &&
      next in t.unlockedLevels && s.unlockedLevels <= t.unlockedLevels && LevelsOk(t.unlockedLevels)
  {
    var unlocked := if next in s.unlockedLevels then s.unlockedLevels else s.unlockedLevels + [next];
    if next !in s.unlockedLevels {
      AppendKeepsLevelsOk(s.unlockedLevels, next);
    }
    ResetOutcome(cfg, s.(currentLevel := next, levelCompleted := false, unlockedLevels := unlocked), d);
  }

  /** The delayed end of a promotion lands on `next` with a zero score, paused and marked
      completed (so no further promotion is due), with `next` and the level after it unlocked. */
  lemma CompleteTransitionOutcome(cfg: Config, s: State, next: int, d: Draws)
    requires LevelsOk(s.unlockedLevels)
    ensures var t := CompleteTransition(cfg, s, next, d);
      t.currentLevel == next && t.score == 0 && t.levelCompleted && t.isPaused &&
      !t.isPlaying && !t.isGameOver &&
      next in t.unlockedLevels && (next + 1 in cfg.levels ==> next + 1 in t.unlockedLevels) &&
      s.unlockedLevels <= t.unlockedLevels && LevelsOk(t.unlockedLevels) &&
      !LevelUpDue(cfg, t)
  {
    SwitchToNextLevelOutcome(cfg, Resume(s), next, d);
    var switched := SwitchToNextLevel(cfg, Resume(s), next, d);
    UnlockKeepsLevelsOk(cfg, switched.(isPaused := true, levelCompleted := true));
  }

  // ----- scores and themes -----

  /** Ending the game leaves a high score no lower than the final score or the old high score. */
  lemma EndGameKeepsHighScore(s: State)
    ensures EndGame(s).highScore >= s.score && EndGame(s).highScore >= s.highScore
    ensures EndGame(s).isGameOver && !EndGame(s).isPlaying && EndGame(s).score == s.score
  {
  }

  /** A new maximum is written through to storage: the shown and stored high scores
      stay equal, and become equal whenever the score beats the shown one. */
  lemma UpdateHighScoreSaves(s: State)
    requires HighScoreSaved(s) || s.score > s.highScore
    ensures HighScoreSaved(UpdateHighScore(s))
  {
  }

  /** After a reset the shown high score is the one stored for the level. */
  lemma ResetSavesHighScore(cfg: Config, s: State, d: Draws)
    ensures HighScoreSaved(Reset(cfg, s, d))
  {
    var configured := ApplyLevelConfig(cfg, Cleared(s));
    var loaded := configured.(highScore := LoadHighScore(configured));
    UpdateHighScoreSaves(loaded);
    var checked := CheckLevelUp(cfg, UpdateHighScore(loaded));
    UpdateHighScoreSaves(checked);
  }

  /** Scoring keeps the shown high score equal to the stored one. */
  lemma ScoredKeepsHighScoreSaved(cfg: Config, m: State)
    requires |m.snake| >= 1 && Eating(m) && HighScoreSaved(m)
    ensures HighScoreSaved(Scored(cfg, m))
  {
  }

  /** Eating keeps the shown high score equal to the stored one. */
  lemma EatKeepsHighScoreSaved(cfg: Config, m: State, d: Draws)
    requires |m.snake| >= 1 && HighScoreSaved(m)
    ensures HighScoreSaved(Eat(cfg, m, d))
  {
    if Eating(m) {
      var scored := Scored(cfg, m);
      ScoredKeepsHighScoreSaved(cfg, m);
      var fed := Fed(cfg, scored);
      assert fed.currentLevel == scored.currentLevel && fed.highScores == scored.highScores &&
             fed.highScore == scored.highScore;
      assert Eat(cfg, m, d) == SpeedUp(cfg, Refill(fed, d), m.food.value.kind);
    }
  }

  /** A tick keeps the shown high score equal to the stored one. */
  lemma TickKeepsHighScoreSaved(cfg: Config, s: State, d: Draws)
    requires |s.snake| >= 1 && HighScoreSaved(s)
    ensures HighScoreSaved(Tick(cfg, s, d))
  {
    var m := Moved(s);
    if Collides(cfg.gridSize, m.snake, m.obstacles) {
      UpdateHighScoreSaves(m.(isGameOver := true, isPlaying := false));
      assert Tick(cfg, s, d) == EndGame(m);
    } else {
      EatKeepsHighScoreSaved(cfg, m, d);
      assert Tick(cfg, s, d) == Eat(cfg, m, d);
    }
  }

  /** The theme index arithmetic steps by one every 10 points and repeats after 70;
      the shown theme follows it only when the colours are refreshed. */
  lemma ColorIndexCycles(score: nat)
    ensures ColorIndex(score + 10) == (ColorIndex(score) + 1) % ThemeCount
    ensures ColorIndex(score + 10 * ThemeCount) == ColorIndex(score)
    ensures ColorIndex(score - score % 10) == ColorIndex(score)
  {
    assert (score + 10) / 10 == score / 10 + 1;
    assert (score + 10 * ThemeCount) / 10 == score / 10 + ThemeCount;
    assert (score - score % 10) / 10 == score / 10;
  }

  // ----- food -----

  /** With the default weights a roll of 0.5 gives normal, 0.75 big, 0.95 slow food. */
  lemma DefaultWeightsScenario()
    ensures PickFoodType(DefaultWeights, 0.5) == Normal
    ensures PickFoodType(DefaultWeights, 0.75) == Big
    ensures PickFoodType(DefaultWeights, 0.95) == Slow
  {
  }

  /** Weights are not normalised: when normal and big already cover [0, 1), slow food
      is never chosen, whatever its own weight. */
  lemma SaturatedWeightsNeverSlow(w: FoodWeights, r: real)
    requires w.normal + w.big >= 1.0 && r < 1.0
    ensures PickFoodType(w, r) != Slow
    ensures PickFoodType(w, r) == PickFoodType(w.(slow := 0.0), r)
  {
  }

  /** A level without its own weights serves only normal food. */
  lemma PlainWeightsOnlyNormal(r: real)
    requires 0.0 <= r < 1.0
    ensures PickFoodType(PlainWeights, r) == Normal
  {
  }

  // ----- level settings -----

  /** A configured level's non-zero speed and its weights are taken as given; a speed
      of 0 counts as absent, like a missing one, and a missing obstacle count or a
      count of 0 becomes 0. An unconfigured level keeps its obstacle count and food
      weights and restores the initial speed. Nothing else changes. */
  lemma LevelConfigApplied(cfg: Config, s: State)
    ensures var t := ApplyLevelConfig(cfg, s);
      t == s.(gameSpeed := t.gameSpeed, obstacleCount := t.obstacleCount, foodWeights := t.foodWeights)
    ensures s.currentLevel in cfg.levels && cfg.levels[s.currentLevel].gameSpeed in {None, Some(0)} ==>
      ApplyLevelConfig(cfg, s).gameSpeed == cfg.initialGameSpeed
    ensures s.currentLevel in cfg.levels && cfg.levels[s.currentLevel].gameSpeed.Some? &&
            cfg.levels[s.currentLevel].gameSpeed.value != 0 ==>
      ApplyLevelConfig(cfg, s).gameSpeed == cfg.levels[s.currentLevel].gameSpeed.value
    ensures s.currentLevel in cfg.levels ==>
      ApplyLevelConfig(cfg, s).obstacleCount == Some(cfg.levels[s.currentLevel].obstacleCount.GetOr(0))
    ensures s.currentLevel in cfg.levels && cfg.levels[s.currentLevel].foodWeights.Some? ==>
      ApplyLevelConfig(cfg, s).foodWeights == cfg.levels[s.currentLevel].foodWeights.value
    ensures s.currentLevel in cfg.levels && cfg.levels[s.currentLevel].foodWeights.None? ==>
      ApplyLevelConfig(cfg, s).foodWeights == PlainWeights
    ensures s.currentLevel !in cfg.levels ==>
      ApplyLevelConfig(cfg, s) == s.(gameSpeed := cfg.initialGameSpeed)
  {
  }
}
