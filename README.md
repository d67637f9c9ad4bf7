# Snake game with levels — a verified model

This project models the `SnakeGame` class of `script.js`, a browser snake game. The
snake moves on a square grid of cells, one cell per tick. It grows one tick after
eating. A game ends when the head leaves the grid, lands on an obstacle or runs into
the body. The game has three kinds of food:

- normal food scores 10;
- big food scores 20;
- slow food scores 10 and lengthens the tick interval.

Eating normal or big food that leaves the score at a multiple of 50 shortens the
interval. A score that jumps over a multiple of 50 does not, and neither does slow food. Levels come from a loaded
configuration. Each level has its own speed, obstacle count and food weights, and its
own stored high score. Reaching a hard-coded score threshold (300 for level 2, 800 for
level 3) marks the level completed and pauses the game, provided the next level is
configured and the current one is not completed yet. A delayed callback is meant to move
the game to the next level. As written it stops early (see "## Findings").

The model has two layers:

- **Pure rules** (modules `GameState`, `Rules`):
  - one `State` value holds everything the game object holds;
  - each operation of the class is a function from state to state.
- **The game object** (module `Game`): class `SnakeGame`.
  - It has the same fields, and its methods update them in place, statement by
    statement as the source does.
  - Each method's contract ties the new fields to the matching rule applied to the
    old ones: `Snapshot() == Rules.F(old(Snapshot()), …)`.
  - The public operations (construction, the key handler, heading requests, start,
    pause, resume, end, reset, the tick, unlocking, level switches and the level
    transition) promise to keep the object's invariant `Valid`. `Valid` is the game
    invariant (`GameState.Inv`) plus the fact that the shown high score is the one stored
    for the current level (`Rules.HighScoreSaved`).
  - The inner steps `MoveSnake`, `CheckFood`, `InitializeSnake`, `SetupLevelElements`,
    `GenerateFood` and `LayOutLevel` do not promise `Valid`, because the source breaks
    the invariant in the middle of an operation (for example, the moved head may sit on
    the food until `checkFood` replaces it).

The modules `Grid`, `Keys`, `Food` and `Placement` hold the following:

- grid geometry;
- key decoding;
- food kinds and the weighted pick;
- the starting body, obstacle sampling and food placement.

`Properties` holds the lemmas about the rules. `Findings` holds the one defect found in
the source.

Randomness is an input. A `Draws` value supplies:

- the cells the obstacle sampler draws, in order;
- the cells the food placer draws, in order;
- the number in [0, 1) that picks the food kind.

The browser's `localStorage` high scores are the map `highScores` from level to score.

Two details of the code:

- **Starting body.** `initializeSnake` puts the tail at column `gridSize/2 - length/2`
  on row `gridSize/2`. For a 20-cell grid and length 3, the body is `(10,11)` (the head),
  `(10,10)` and `(10,9)` (`Placement.DefaultStartingBody`).
- **Portals.** `script.js` reads a `portals` field but never assigns it. The model takes
  the portals as a configuration field, which is empty in `DefaultConfig`.

## Model

| member | source | states |
|---|---|---|
| Grid.Opposite | script.js:655-659 | the opposite of a heading differs from it and lies on the same axis |
| Keys.LowerAscii | script.js:163-164 | lower-casing keeps the length and changes only the letters A–Z, each to its own lower case |
| Food.FoodScore | script.js:466-476 | big food scores 20, every other kind 10 |
| Food.PickFoodType | script.js:413-419 | normal exactly when the roll is below the normal weight; big exactly when it is at least that and below normal + big; slow otherwise |
| Placement.StartingBodyShape | script.js:382-390 | the starting body has the configured length, its head at the centre row and column `gridSize/2 - length/2 + length - 1`, its cells on one row, each one to the left of the previous, and all distinct |
| Placement.StartingBodyIsReserved | script.js:357-362 | the cells the obstacle sampler reserves are exactly the cells of the starting body |
| Placement.DefaultStartingBody | script.js:382-390 | with grid 20 and length 3 the body is (10,11), (10,10), (10,9) |
| Placement.AcceptObstaclesFacts | script.js:369-375 | sampled obstacles are distinct, drawn, never reserved, and at most `count` in number; a shorter result means every draw was reserved or already taken |
| Placement.ObstaclesSound | script.js:355-380 | the same facts from an empty start, as the sampler is called |
| Placement.FirstFree | script.js:392-401 | the food cell is the first draw on neither the body nor an obstacle; there is none exactly when every draw is blocked |
| Rules.UpdateHighScore | script.js:572-580 | the high score becomes the larger of itself and the score; the level's stored score is written only when the score beats it; nothing else changes |
| Rules.ColorIndex | script.js:536-540 | the colour theme index is always one of the seven themes |
| Rules.MoveSnake | script.js:432-445 | the new head is one step from the old in the current heading; the rest of the body is the old body, minus its last cell unless food was eaten; the growth flag is cleared; nothing else changes |
| Rules.Tick | script.js:421-445 | a tick commits the pending heading, puts the new head one step ahead in that heading, and keeps the rest of the body: the whole old body if food was eaten the tick before, all but its last cell otherwise |
| Rules.Eat | script.js:462-494 | no food under the head changes nothing; eating sets the growth flag and leaves the body, obstacles, headings, level and unlocked list alone |
| Rules.Scored | script.js:466-479 | the score grows by the food's points; slow food raises the interval by the slow-down step, capped at the maximum |
| Properties.SetDirectionNeverReverses | script.js:655-659 | a heading request changes only the pending heading, is ignored while stopped or paused, is taken unless it reverses the current heading, and never sets a reversing heading |
| Properties.KeyPressMatchesSetDirection | script.js:163-180 | an arrow or W/A/S/D key in any case acts exactly like the matching heading request |
| Properties.PauseKeyToggles | script.js:166-171 | P toggles pause in a running game that is not over and is ignored otherwise |
| Properties.UpKeysScenario | script.js:175 | "W" and "ArrowUp" both ask for up |
| Properties.RunStateIdempotent | script.js:182-185 | pausing, resuming and starting twice is the same as once |
| Properties.PauseResumeRoundTrip | script.js:636-652 | resuming undoes the pause of a running game; starting a running game does nothing |
| Properties.TickNeverReverses | script.js:421-423 | under the invariant, the heading after a tick never reverses the one before |
| Properties.GrowthLagsOneTick | script.js:443-444 | the tick that eats sets the growth flag without growing; the next tick adds one segment |
| Properties.WallIsFatal | script.js:449-452 | a head stepping off the grid ends the game, stops it, keeps the score and raises the high score to at least it |
| Properties.CollisionIsFatal | script.js:421-427 | a moved head off the grid, on an obstacle or on a later body cell ends and stops the game; without a collision the tick leaves the game-over and playing flags unchanged |
| Properties.VacatedTailIsSafe | script.js:443-458 | the body moves before the collision check, so stepping into the cell the tail just left is not a collision |
| Properties.TickKeepsBodyDistinct | script.js:421-458 | a tick without a collision keeps the body free of repeated cells |
| Properties.TickKeepsSpeedInRange | script.js:472-488 | the tick interval stays between the minimum and maximum when it starts there |
| Properties.EatScoresAndPaces | script.js:466-488 | eating adds the food's points; slow food raises the interval up to the maximum; other food lowers it to no less than the minimum exactly when the new score is a multiple of 50 |
| Properties.UneatenFoodOffBody | script.js:432-445 | food the head did not land on is not on the moved body |
| Properties.CollisionMissesFood | script.js:449-460 | a colliding head is not on the food |
| Properties.RefilledFoodOffBody | script.js:392-401 | new food after eating is on the grid, off the obstacles and off the body |
| Properties.FoodStaysOffBody | script.js:421-494 | after any tick the food, if any, is on the grid, off the obstacles and off the body |
| Properties.TickPreservesInv | script.js:421-430 | every tick keeps the game invariant |
| Properties.FirstTickScenario | script.js:382-390 | from the default starting body with no obstacles and no food at (10,12), one tick moves the body to (10,12), (10,11), (10,10), with score and game-over flag unchanged |
| Properties.LevelUpFiresOnce | script.js:543-561 | a due promotion marks the level completed and pauses a running game, after which it is no longer due; otherwise nothing changes |
| Properties.RunTicks | script.js:421-430 | a run of ticks keeps a non-empty body |
| Properties.CompletedLevelNeverRepromotes | script.js:547-549 | once the level is marked completed, no run of ticks schedules another promotion |
| Properties.ResetNeverPromotes | script.js:210-211 | the promotion check during a reset never fires, because the score is 0 |
| Properties.AppendKeepsLevelsOk | script.js:298-300 | appending a level not yet unlocked keeps the unlocked list starting at 1 and free of repeats |
| Properties.UnlockKeepsLevelsOk | script.js:252-261 | unlocking only appends, keeps the list sound, always makes the configured next level available, and changes nothing else |
| Properties.ResetOutcome | script.js:193-225 | a reset clears score and flags, heads right, lays out the starting body, keeps level and unlocked list, and loads the level's stored high score |
| Properties.ResetEstablishesInv | script.js:193-225 | a reset from a sound unlock list establishes the game invariant |
| Properties.SwitchLevelGuarded | script.js:242-250 | switching to an undefined or locked level is ignored; otherwise it lands on that level with a zero score |
| Properties.SwitchToNextLevelOutcome | script.js:294-307 | moving on lands on the level with a fresh round, unlocks it, and only grows the unlocked list |
| Properties.CompleteTransitionOutcome | script.js:551-556 | the promotion callback lands on the next level with score 0, paused and marked completed (so no further promotion is due), with that level and the one after it unlocked |
| Properties.EndGameKeepsHighScore | script.js:582-590 | ending the game leaves a high score at least the final score and the old high score |
| Properties.UpdateHighScoreSaves | script.js:563-580 | when the shown high score equals the one stored for the level, or the score beats it, after `updateHighScore` the shown and stored high scores are equal |
| Properties.ResetSavesHighScore | script.js:193-212 | after any reset the shown high score is the one stored for the current level |
| Properties.ScoredKeepsHighScoreSaved | script.js:462-479 | scoring food keeps the shown high score equal to the stored one |
| Properties.EatKeepsHighScoreSaved | script.js:462-494 | eating keeps the shown high score equal to the stored one |
| Properties.TickKeepsHighScoreSaved | script.js:421-430 | every tick keeps the shown high score equal to the stored one |
| Properties.ColorIndexCycles | script.js:536-540 | the theme index arithmetic steps by one every 10 points and repeats every 70 points. The displayed theme changes only when `updateColors` runs: at start, at reset and at scores that are multiples of 100 |
| Properties.DefaultWeightsScenario | script.js:21 | with weights 0.7/0.2/0.1, rolls 0.5, 0.75 and 0.95 give normal, big and slow |
| Properties.SaturatedWeightsNeverSlow | script.js:413-419 | weights are not normalised: when normal + big covers [0, 1), slow food never appears |
| Properties.PlainWeightsOnlyNormal | script.js:234 | a level without its own weights serves only normal food |
| Properties.LevelConfigApplied | script.js:228-239 | for a configured level, a non-zero speed and given weights are taken as they are, a zero or missing speed falls back to the initial speed, the obstacle count becomes the given count or 0, and missing weights become all-normal; an unconfigured level only resets the speed; no other field changes |
| Findings.AsWrittenPromotionStalls | script.js:551-556 | as written, a promotion pauses the game and the callback only unpauses it: same level, still marked completed, never due again |
| Findings.CorrectedPromotionAdvances | script.js:551-556 | with the intended callback the same promotion reaches the next level, unlocked, with score 0 |
| Game.SnakeGame.constructor | script.js:2-79 | construction with a loaded configuration ends in the first reset, with the invariant established |
| Game.SnakeGame.HandleKeyPress | script.js:163-180 | the key handler performs `Rules.KeyPress` on the fields and keeps the invariant |
| Game.SnakeGame.SetDirection | script.js:655-659 | performs `Rules.SetDirection` and keeps the invariant |
| Game.SnakeGame.StartGame | script.js:182-191 | performs `Rules.Start` |
| Game.SnakeGame.PauseGame | script.js:636-643 | performs `Rules.Pause` |
| Game.SnakeGame.ResumeGame | script.js:645-652 | performs `Rules.Resume` |
| Game.SnakeGame.EndGame | script.js:582-590 | performs `Rules.EndGame` and keeps the invariant |
| Game.SnakeGame.ResetGame | script.js:193-225 | performs `Rules.Reset` and establishes the invariant |
| Game.SnakeGame.ClearRound | script.js:195-202 | clears the flags, heading and score |
| Game.SnakeGame.ClearPauseHeadingScore | script.js:195-198 | unpauses, heads right in both headings, zeroes the score, and changes nothing else |
| Game.SnakeGame.ClearRunFlags | script.js:199-202 | clears the game-over, playing, eaten and completed flags, and changes nothing else |
| Game.SnakeGame.RestoreLevel | script.js:205-212 | applies the level's settings, loads its high score and runs the promotion check |
| Game.SnakeGame.LayOutLevel | script.js:213-215 | lays out obstacles, the starting body and food |
| Game.SnakeGame.ApplyLevelConfig | script.js:228-239 | performs `Rules.ApplyLevelConfig` |
| Game.SnakeGame.SetupLevelElements | script.js:347-353 | replaces the obstacles with a fresh sample of the configured count (0 when unset) |
| Game.SnakeGame.GenerateObstacles | script.js:355-380 | the loops build the reserved set and sample distinct, unreserved obstacles, exactly as `Placement.AcceptObstacles` |
| Game.SnakeGame.InitializeSnake | script.js:382-390 | the loop pushes the starting body, head first |
| Game.SnakeGame.GenerateFood | script.js:392-401 | places new food as `Rules.PlaceFood` does |
| Game.SnakeGame.DrawFoodCell | script.js:393-399 | the retry loop returns the first drawn cell off the body and obstacles |
| Game.SnakeGame.IsPositionOccupied | script.js:403-405 | true exactly when some segment has the cell's row and column |
| Game.SnakeGame.IsObstacle | script.js:407-409 | true exactly when some obstacle has the cell's row and column |
| Game.SnakeGame.GameLoop | script.js:421-430 | performs `Rules.Tick`, reports any promotion it schedules, and keeps the invariant |
| Game.SnakeGame.MoveSnake | script.js:432-445 | performs `Rules.MoveSnake` |
| Game.SnakeGame.CheckCollision | script.js:449-460 | true exactly when the head is off the grid, on an obstacle, or on a later segment of the body |
| Game.SnakeGame.CheckFood | script.js:462-494 | performs `Rules.Eat` and reports any promotion it schedules |
| Game.SnakeGame.AddFoodScore | script.js:466-479 | adds the food's points (slowing the game for slow food) and updates the high score |
| Game.SnakeGame.SpeedUpOnFifty | script.js:485-488 | shortens the interval on a multiple of 50 after non-slow food |
| Game.SnakeGame.LoadHighScore | script.js:563-566 | in a valid game, the stored high score of the current level equals the shown high score |
| Game.SnakeGame.SaveHighScore | script.js:568-570 | stores the high score under the current level and changes nothing else, so `LoadHighScore` then returns it |
| Game.SnakeGame.UpdateHighScore | script.js:572-580 | performs `Rules.UpdateHighScore` |
| Game.SnakeGame.IsLevelUnlocked | script.js:309-311 | in a valid game, level 1 is always unlocked |
| Game.SnakeGame.CheckLevelUp | script.js:543-561 | performs `Rules.CheckLevelUp` and reports the level scheduled |
| Game.SnakeGame.UnlockNextLevel | script.js:252-261 | performs `Rules.UnlockNextLevel` and keeps the invariant |
| Game.SnakeGame.SwitchLevel | script.js:242-250 | performs `Rules.SwitchLevel` and keeps the invariant |
| Game.SnakeGame.SwitchToNextLevel | script.js:294-307 | performs `Rules.SwitchToNextLevel` and keeps the invariant |
| Game.SnakeGame.Celebrate | script.js:592-605 | performs `Rules.Celebrate` |
| Game.SnakeGame.CompleteLevelTransition | script.js:551-556 | performs `Rules.CompleteTransition` (resume, switch, celebrate) and keeps the invariant |

## Left out

- Rendering, the DOM, the buttons, the notifications, the fireworks, the pause overlay and the event wiring are not modelled. `updateColors` is modelled only as the theme index (`Rules.ColorIndex`).
- `loadConfig`'s fetch of `config.json` and its JSON parsing are not modelled. The loaded settings are the `Config` value given to the constructor.
- The numbers in `Config` and `LevelConfig` (grid size, snake length, speeds, steps, obstacle counts) are integers. `loadConfig` accepts any JSON number, fractions included, so a fractional setting is not modelled.
- Timers are not modelled. The tick interval is the `gameSpeed` field. `gameLoop` runs once per call of `GameLoop`. The two delayed callbacks of a promotion run when `CompleteLevelTransition` is called with the level that `GameLoop` reported.
- `Math.random` is replaced by the `Draws` input.
- Game.SnakeGame.GenerateObstacles: draws the cells from a finite sequence. When the sequence runs out before `count` cells are accepted, it returns the cells accepted so far. The source would keep drawing, and would never stop when fewer free cells than `count` exist.
- Game.SnakeGame.DrawFoodCell: when every supplied draw is blocked, the result is no food. The source would keep drawing, and would never stop on a full grid.
- `resumeGame` calls `startTimer`, which `script.js` does not define. The main model takes that call as doing nothing. The failure it causes is under Findings.
- `_collidedOnMove` is never set true by the code, so it is left out of the collision test.
- `localStorage` holds strings. The model stores integers, so a stored value that `parseInt` cannot read is not modelled.
- Food weights and the food roll are exact reals in the model. The source adds doubles. For example, 0.7 + 0.2 is 0.8999999999999999 in doubles, so a roll of 0.8999999999999999 picks slow food in the source and big food in the model.
- Key names are lower-cased for ASCII letters only. Other Unicode case folding is not modelled.
- An empty starting body is excluded (`initialSnakeLength >= 1`). With length 0 the source reads a missing head on the first tick.

## Findings

| source | as written | input that shows it | evidently intended | confidence | as-written member | corrected member |
|---|---|---|---|---|---|---|
| script.js:551-556, script.js:645-652 | the promotion callback first calls `resumeGame`. On the running, paused game that `checkLevelUp` left behind, `resumeGame` unpauses it and then calls the undefined `startTimer`, which throws. `switchToNextLevel` and `celebrate` never run. | level 1 of a configuration defining level 2: eat food that brings the score to 300 while playing | the game moves on to level 2 with a fresh round, unlocks it, and celebrates | not executed | Findings.AsWrittenPromotionStalls | Findings.CorrectedPromotionAdvances |
