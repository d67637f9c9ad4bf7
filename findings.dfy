/** The delayed end of a promotion as the source writes it. Resuming a running,
    paused game clears the pause and then calls a timer routine the game class does
    not define; that call fails, so the level switch and the celebration after it
    never run. `Rules.CompleteTransition` is the intended behaviour, with the missing
    routine taken as doing nothing. */
module Findings {
  import opened Common
  import opened GameState
  import opened Rules
  import opened Properties

  /** The promotion callback as written: a failing resume stops it after unpausing. */
  function TransitionAsWritten(cfg: Config, s: State, next: int, d: Draws): State {
    if s.isPlaying && s.isPaused then s.(isPaused := false)
    else CompleteTransition(cfg, s, next, d)
  }

  /** A tick of a running game that schedules a promotion leaves the game paused with
      the level completed; the callback as written then only unpauses, so the game stays
      on the old level with the completed flag set, and is not promoted again before
      the round is reset. */
  lemma AsWrittenPromotionStalls(cfg: Config, s: State, d1: Draws, d2: Draws)
    requires |s.snake| >= 1 && s.isPlaying && !s.isPaused
    requires TickScheduled(cfg, s).Some?
    ensures var t := Tick(cfg, s, d1);
      var u := TransitionAsWritten(cfg, t, TickScheduled(cfg, s).value, d2);
      t.isPlaying && t.isPaused && t.levelCompleted &&
      u.currentLevel == s.currentLevel && u.levelCompleted && u.isPlaying && !u.isPaused &&
      !LevelUpDue(cfg, u)
  {
    var m := Moved(s);
    assert !Collides(cfg.gridSize, m.snake, m.obstacles) && Eating(m);
    var scored := Scored(cfg, m);
    assert LevelUpDue(cfg, scored) && scored.isPlaying && !scored.isPaused;
    var checked := CheckLevelUp(cfg, scored);
    assert checked.isPlaying && checked.isPaused && checked.levelCompleted;
  }

  /** The same promotion with the intended callback reaches the next level. */
  lemma CorrectedPromotionAdvances(cfg: Config, s: State, d1: Draws, d2: Draws)
    requires |s.snake| >= 1 && s.isPlaying && !s.isPaused && LevelsOk(s.unlockedLevels)
    requires TickScheduled(cfg, s).Some?
    ensures var t := Tick(cfg, s, d1);
      var u := CompleteTransition(cfg, t, TickScheduled(cfg, s).value, d2);
      u.currentLevel == s.currentLevel + 1 && u.currentLevel in u.unlockedLevels && u.score == 0
  {
    var t := Tick(cfg, s, d1);
    var m := Moved(s);
    assert Eating(m) && TickScheduled(cfg, s) == Some(s.currentLevel + 1);
    assert t.unlockedLevels == s.unlockedLevels;
    CompleteTransitionOutcome(cfg, t, s.currentLevel + 1, d2);
  }
}
