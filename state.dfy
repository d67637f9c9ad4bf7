/** The configuration the game reads once, the state it changes tick by tick, the
    random draws it consumes, and the invariant every public operation keeps. */
module GameState {
  import opened Common
  import opened Grid
  import opened Food
  import opened Placement

  /** One entry of the level table; a missing field falls back to a default. */
  datatype LevelConfig = LevelConfig(
    gameSpeed: Option<int>,
    obstacleCount: Option<int>,
    foodWeights: Option<FoodWeights>)

  /** Settings that are fixed once the configuration has been loaded. */
  datatype Config = Config(
    gridSize: int,
    initialSnakeLength: int,
    initialGameSpeed: int,   // tick interval in ms at level entry
    speedStep: int,
    minSpeed: int,
    maxSpeed: int,
    slowDownStep: int,
    levels: map<int, LevelConfig>,
    portals: seq<Portal>)

  /** The built-in values used when the configuration document supplies none. */
  const DefaultConfig := Config(20, 3, 150, 15, 70, 300, 30, map[], [])

  /** Score needed to be promoted to a level, keyed by that level; built in, not configurable. */
  const LevelUpScores: map<int, int> := map[2 := 300, 3 := 800]

  /** Number of colour themes the score cycles through. */
  const ThemeCount := 7

  /** Everything a game session changes. `highScores` stands for the browser's
      persistent storage, one entry per level. */
  datatype State = State(
    snake: seq<Pos>,
    direction: Direction,
    nextDirection: Direction,
    score: nat,
    gameSpeed: int,
    highScore: int,
    highScores: map<int, int>,
    isPlaying: bool,
    isPaused: bool,
    isGameOver: bool,
    foodEaten: bool,
    levelCompleted: bool,
    currentLevel: int,
    unlockedLevels: seq<int>,
    food: Option<Food>,
    obstacles: seq<Pos>,
    obstacleCount: Option<int>,
    foodWeights: FoodWeights)

  /** The random draws one operation may consume: candidate cells for obstacles and
      for food, in drawing order, and the draw that picks the kind of food. */
  datatype Draws = Draws(obstacleCells: seq<Pos>, foodCells: seq<Pos>, foodRoll: real)

  /** Draws as a uniform generator produces them: cells on the field, a roll in [0, 1). */
  predicate DrawsInRange(n: int, d: Draws) {
    (forall c :: c in d.obstacleCells ==> InGrid(n, c)) &&
    (forall c :: c in d.foodCells ==> InGrid(n, c)) &&
    0.0 <= d.foodRoll < 1.0
  }

  /** The state right after construction and configuration loading, before the first reset. */
  function Initial(cfg: Config, weights: FoodWeights, obstacleCount: Option<int>,
                   defaultLevel: Option<int>, stored: map<int, int>): State {
    State([], Right, Right, 0, cfg.initialGameSpeed, 0, stored,
          false, false, false, false, false,
          defaultLevel.GetOr(1), [1], None, [], obstacleCount, weights)
  }

  /** Cells obstacle placement must avoid. */
  function Reserved(cfg: Config): set<Pos> {
    ReservedCells(cfg.gridSize, cfg.initialSnakeLength, cfg.portals)
  }

  /** The unlocked levels: level 1 first, no level twice. */
  ghost predicate LevelsOk(levels: seq<int>) {
    |levels| >= 1 && levels[0] == 1 && Distinct(levels)
  }

  /** What a reset needs: a non-empty starting body and a sound unlock list. */
  ghost predicate CanReset(cfg: Config, s: State) {
    cfg.initialSnakeLength >= 1 && LevelsOk(s.unlockedLevels)
  }

  /** The invariant between operations: a body to move, a pending heading that is
      not a reversal, obstacles distinct, on the field and off the reserved cells,
      and food, when present, on the field and on neither an obstacle nor the body. */
  ghost predicate Inv(cfg: Config, s: State) {
    CanReset(cfg, s) &&
    |s.snake| >= 1 &&
    s.nextDirection != Opposite(s.direction) &&
    Distinct(s.obstacles) &&
    (forall o :: o in s.obstacles ==> InGrid(cfg.gridSize, o) && o !in Reserved(cfg)) &&
    (s.food.Some? ==>
      InGrid(cfg.gridSize, s.food.value.pos) &&
      s.food.value.pos !in s.obstacles && s.food.value.pos !in s.snake)
  }
}
