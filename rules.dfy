/** The game's rules as functions from state to state, one per operation of the
    game class; module Game performs the same steps in place on the object's fields. */
module Rules {
  import opened Common
  import opened Grid
  import opened Keys
  import opened Food
  import opened Placement
  import opened GameState

  // ----- input and run state -----

  /** A requested heading becomes pending unless the game is not running, is paused,
      or the heading reverses the committed one. */
  function SetDirection(s: State, dir: Direction): State {
    if !s.isPlaying || s.isPaused then s
    else if s.direction != Opposite(dir) then s.(nextDirection := dir)
    else s
  }

  /** Pausing only affects a running, unpaused game. */
  function Pause(s: State): State {
    if !s.isPlaying || s.isPaused then s else s.(isPaused := true)
  }

  /** Resuming only affects a running, paused game. */
  function Resume(s: State): State {
    if !s.isPlaying || !s.isPaused then s else s.(isPaused := false)
  }

  /** Starting only affects a game that is not running. */
  function Start(s: State): State {
    if s.isPlaying then s else s.(isPlaying := true, isGameOver := false)
  }

  /** A key press: P toggles pause in a running game that is not over; the arrow keys
      and W, A, S, D request a heading like `SetDirection`; other keys do nothing. */
  function KeyPress(s: State, key: string): State {
    var k := LowerAscii(key);
    if k == "p" then
      (if !s.isGameOver && s.isPlaying then (if s.isPaused then Resume(s) else Pause(s)) else s)
    else if !s.isPlaying || s.isPaused then s
    else match KeyDirection(k)
      case None => s
      case Some(d) => if s.direction != Opposite(d) then s.(nextDirection := d) else s
  }

  // ----- moving and colliding -----

  /** A new head one cell along the committed heading goes on the front; the tail is
      dropped unless food was eaten on the previous tick. */
  function MoveSnake(s: State): (t: State)
    requires |s.snake| >= 1
    ensures |t.snake| == |s.snake| + (if s.foodEaten then 1 else 0)
    ensures t.snake[0] == Step(s.snake[0], s.direction)
    ensures t.snake[1..] == if s.foodEaten then s.snake else s.snake[..|s.snake| - 1]
    ensures !t.foodEaten
    ensures t == s.(snake := t.snake, foodEaten := false)
  {
    var grown := [Step(s.snake[0], s.direction)] + s.snake;
    s.(snake := if s.foodEaten then grown else grown[..|grown| - 1], foodEaten := false)
  }

  /** The head is off the field, on an obstacle, or on a later segment of the body. */
  predicate Collides(gridSize: int, snake: seq<Pos>, obstacles: seq<Pos>)
    requires |snake| >= 1
  {
    !InGrid(gridSize, snake[0]) || snake[0] in obstacles || snake[0] in snake[1..]
  }

  // ----- scores -----

  /** The high score is the running maximum of the scores seen; a new maximum is
      written to storage under the current level. */
  function UpdateHighScore(s: State): (t: State)
    ensures t.highScore == Max(s.highScore, s.score)
    ensures t.highScores == if s.score > s.highScore then s.highScores[s.currentLevel := s.score] else s.highScores
    ensures t == s.(highScore := t.highScore, highScores := t.highScores)
  {
    if s.score > s.highScore then s.(highScore := s.score, highScores := s.highScores[s.currentLevel := s.score])
    else s
  }

  /** The game stops and the high score is reconciled. */
  function EndGame(s: State): State {
    UpdateHighScore(s.(isGameOver := true, isPlaying := false))
  }

  /** The stored high score of the current level, 0 when none is stored. */
  function LoadHighScore(s: State): int {
    if s.currentLevel in s.highScores then s.highScores[s.currentLevel] else 0
  }

  /** The shown high score is the one stored for the current level. */
  predicate HighScoreSaved(s: State) {
    LoadHighScore(s) == s.highScore
  }

  /** Colour theme for a score: the next one every 10 points, cycling through the themes. */
  function ColorIndex(score: nat): (i: nat)
    ensures i < ThemeCount
  {
    (score / 10) % ThemeCount
  }

  // ----- level progression -----

  /** The promotion condition: the next level has a non-zero threshold, the score has
      reached it, the next level is configured, and this level is not yet completed. */
  predicate LevelUpDue(cfg: Config, s: State) {
    var next := s.currentLevel + 1;
    next in LevelUpScores && LevelUpScores[next] != 0 && s.score >= LevelUpScores[next] &&
    next in cfg.levels && !s.levelCompleted
  }

  /** On promotion the level is marked completed and the game pauses; the switch to
      the next level follows later (`CompleteTransition`). */
  function CheckLevelUp(cfg: Config, s: State): (t: State)
    ensures t == s.(levelCompleted := t.levelCompleted, isPaused := t.isPaused)
  {
    if LevelUpDue(cfg, s) then Pause(s.(levelCompleted := true)) else s
  }

  /** The level a promotion was scheduled for, if any. */
  function Scheduled(cfg: Config, s: State): Option<int> {
    if LevelUpDue(cfg, s) then Some(s.currentLevel + 1) else None
  }

  /** Adds the level after the current one to the unlocked list when it is configured
      and not yet there. */
  function UnlockNextLevel(cfg: Config, s: State): State {
    var next := s.currentLevel + 1;
    if next in cfg.levels && next !in s.unlockedLevels then s.(unlockedLevels := s.unlockedLevels + [next])
    else s
  }

  /** The speed, obstacle count and food weights of the current level; a zero or missing
      speed falls back to the initial one, a missing count to 0, missing weights to
      normal food only. An unconfigured level only restores the initial speed. */
  function ApplyLevelConfig(cfg: Config, s: State): State {
    if s.currentLevel in cfg.levels then
      var lc := cfg.levels[s.currentLevel];
      s.(gameSpeed := if lc.gameSpeed.Some? && lc.gameSpeed.value != 0 then lc.gameSpeed.value else cfg.initialGameSpeed,
         obstacleCount := Some(lc.obstacleCount.GetOr(0)),
         foodWeights := lc.foodWeights.GetOr(PlainWeights))
    else s.(gameSpeed := cfg.initialGameSpeed)
  }

  /** How many obstacles to place: an unset count means none. */
  function ObstacleTarget(count: Option<int>): int {
    count.GetOr(0)
  }

  // ----- placement -----

  /** New food on the first free drawn cell, of the kind the roll picks; none when
      every supplied cell is taken. */
  function PlaceFood(s: State, d: Draws): Option<Food> {
    match FirstFree(d.foodCells, s.snake, s.obstacles)
    case None => None
    case Some(p) => Some(Food(p, PickFoodType(s.foodWeights, d.foodRoll)))
  }

  /** Flags, heading and score back to their values before a round. */
  function Cleared(s: State): State {
    s.(isPaused := false, direction := Right, nextDirection := Right, score := 0,
       isGameOver := false, isPlaying := false, foodEaten := false, levelCompleted := false)
  }

  /** A fresh round on the current level: flags, heading and score cleared, the level's
      settings applied, its high score loaded, obstacles, body and food laid out again. */
  function Reset(cfg: Config, s: State, d: Draws): State {
    LaidOut(cfg, Restored(cfg, Cleared(s)), d)
  }

  /** The level's settings applied, its stored high score loaded, and a promotion check. */
  function Restored(cfg: Config, s: State): State {
    var configured := ApplyLevelConfig(cfg, s);
    var loaded := configured.(highScore := LoadHighScore(configured));
    UpdateHighScore(CheckLevelUp(cfg, UpdateHighScore(loaded)))
  }

  /** Obstacles sampled around the reserved cells, the starting body, then the food. */
  function LaidOut(cfg: Config, s: State, d: Draws): State {
    var walled := s.(obstacles := AcceptObstacles(d.obstacleCells, Reserved(cfg), ObstacleTarget(s.obstacleCount), []));
    Refill(walled.(snake := StartingBody(cfg.gridSize, cfg.initialSnakeLength)), d)
  }

  /** Moves to a configured, unlocked level and resets; otherwise nothing happens. */
  function SwitchLevel(cfg: Config, s: State, level: int, d: Draws): State {
    if level in cfg.levels && level in s.unlockedLevels then
      Reset(cfg, s.(currentLevel := level, levelCompleted := false), d)
    else s
  }

  /** Moves to `next`, unlocking it if needed, and resets (which clears the score). */
  function SwitchToNextLevel(cfg: Config, s: State, next: int, d: Draws): State {
    var unlocked := if next in s.unlockedLevels then s.unlockedLevels else s.unlockedLevels + [next];
    Reset(cfg, s.(currentLevel := next, levelCompleted := false, unlockedLevels := unlocked), d)
  }

  /** Pauses, marks the level completed and unlocks the one after it. */
  function Celebrate(cfg: Config, s: State): State {
    UnlockNextLevel(cfg, s.(isPaused := true, levelCompleted := true))
  }

  /** The delayed end of a promotion: resume, switch to `next`, celebrate. */
  function CompleteTransition(cfg: Config, s: State, next: int, d: Draws): State {
    Celebrate(cfg, SwitchToNextLevel(cfg, Resume(s), next, d))
  }

  // ----- eating and ticking -----

  /** The head is on the food. */
  predicate Eating(s: State)
    requires |s.snake| >= 1
  {
    s.food.Some? && s.snake[0] == s.food.value.pos
  }

  /** The first half of eating: slow food slows the game down (capped at the maximum
      interval), the score grows and the high score follows it. */
  function Scored(cfg: Config, s: State): (t: State)
    requires |s.snake| >= 1 && Eating(s)
    ensures t.score == s.score + FoodScore(s.food.value.kind)
    ensures t.gameSpeed == if s.food.value.kind == Slow then Min(s.gameSpeed + cfg.slowDownStep, cfg.maxSpeed) else s.gameSpeed
    ensures t == s.(gameSpeed := t.gameSpeed, score := t.score, highScore := t.highScore, highScores := t.highScores)
  {
    var kind := s.food.value.kind;
    var slowed := if kind == Slow then s.(gameSpeed := Min(s.gameSpeed + cfg.slowDownStep, cfg.maxSpeed)) else s;
    UpdateHighScore(slowed.(score := s.score + FoodScore(kind)))
  }

  /** Eating the food under the head: score, promotion check, growth on the next tick,
      new food, and a speed-up when non-slow food lands the score on a multiple of 50. */
  function Eat(cfg: Config, s: State, d: Draws): (t: State)
    requires |s.snake| >= 1
    ensures !Eating(s) ==> t == s
    ensures Eating(s) ==> t.foodEaten
    ensures t.snake == s.snake && t.obstacles == s.obstacles && t.direction == s.direction &&
            t.nextDirection == s.nextDirection && t.unlockedLevels == s.unlockedLevels &&
            t.currentLevel == s.currentLevel
  {
    if !Eating(s) then s
    else SpeedUp(cfg, Refill(Fed(cfg, Scored(cfg, s)), d), s.food.value.kind)
  }

  /** The promotion check after scoring, and growth on the next tick. */
  function Fed(cfg: Config, s: State): State {
    CheckLevelUp(cfg, s).(foodEaten := true)
  }

  /** New food in place of the eaten one. */
  function Refill(s: State, d: Draws): State {
    s.(food := PlaceFood(s, d))
  }

  /** A speed-up, bounded by the minimum interval, when food other than slow food
      leaves the score on a multiple of 50. */
  function SpeedUp(cfg: Config, s: State, kind: FoodType): (t: State)
    ensures t == s.(gameSpeed := t.gameSpeed)
  {
    if s.score % 50 == 0 && kind != Slow then s.(gameSpeed := Max(s.gameSpeed - cfg.speedStep, cfg.minSpeed)) else s
  }

  /** The level a promotion was scheduled for while eating, if any. */
  function EatScheduled(cfg: Config, s: State): Option<int>
    requires |s.snake| >= 1
  {
    if Eating(s) then Scheduled(cfg, Scored(cfg, s)) else None
  }

  /** The state after the heading is committed and the body moved. */
  function Moved(s: State): State
    requires |s.snake| >= 1
  {
    MoveSnake(s.(direction := s.nextDirection))
  }

  /** One tick: commit the pending heading, move, end the game on a collision,
      otherwise eat what is under the head. */
  function Tick(cfg: Config, s: State, d: Draws): (t: State)
    requires |s.snake| >= 1
    ensures |t.snake| == |s.snake| + (if s.foodEaten then 1 else 0)
    ensures t.snake[0] == Step(s.snake[0], s.nextDirection)
    ensures t.snake[1..] == if s.foodEaten then s.snake else s.snake[..|s.snake| - 1]
    ensures t.direction == s.nextDirection && t.nextDirection == s.nextDirection
  {
    var moved := Moved(s);
    if Collides(cfg.gridSize, moved.snake, moved.obstacles) then EndGame(moved) else Eat(cfg, moved, d)
  }

  /** The level a promotion was scheduled for during a tick, if any. */
  function TickScheduled(cfg: Config, s: State): Option<int>
    requires |s.snake| >= 1
  {
    var moved := Moved(s);
    if Collides(cfg.gridSize, moved.snake, moved.obstacles) then None else EatScheduled(cfg, moved)
  }
}
