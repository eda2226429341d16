/** Runs of the game built from the operations of class Game: what a sequence of calls leads to. */
module Scenarios {
  import opened GameUtils
  import opened Scoring
  import opened Orders
  import opened Delivery

  /** The remaining-time warnings announced by the ticks that take the elapsed time from `t0` to
      `t` in an unpaused game: 60 when 120 s is reached, 30 at 150 s, 10 at 170 s. */
  function WarningsBetween(t0: int, t: int): (w: seq<int>)
    ensures |w| <= 3
    ensures t0 <= 0 && t >= TimeLimit ==> w == [60, 30, 10]
    ensures t <= t0 ==> w == []
  {
    (if t0 < 120 <= t then [60] else []) + (if t0 < 150 <= t then [30] else []) +
    (if t0 < 170 <= t then [10] else [])
  }

  /** A running game that nobody pauses and in which no delivery is made is lost once the interval
      has fired as many times as seconds remain: the clock stops at the limit with 0 seconds left,
      and exactly the three warnings were announced, in order. */
  method RunOutTheClock(g: Game) returns (warnings: seq<int>, ticks: nat)
    requires g.Valid() && !g.isPaused && !g.isGameOver && !g.gameWon
    modifies g
    ensures g.isGameOver && !g.gameWon && !g.timerRunning
    ensures g.time == TimeLimit && g.timeRemaining == 0
    ensures ticks == TimeLimit - old(g.time)
    ensures warnings == WarningsBetween(old(g.time), TimeLimit)
  {
    g.Update();
    warnings, ticks := [], 0;
    ghost var t0 := g.time;
    while !g.isGameOver
      invariant g.Valid() && !g.isPaused && !g.gameWon
      invariant g.timerRunning == !g.isGameOver
      invariant t0 <= g.time && ticks == g.time - t0
      invariant g.isGameOver ==> g.time == TimeLimit && g.timeRemaining == 0
      invariant warnings == WarningsBetween(t0, g.time)
      decreases TimeLimit - g.time
    {
      var w := g.Tick();
      ticks := ticks + 1;
      if w.Some? {
        warnings := warnings + [w.value];
      }
    }
  }

  /** start after a won game clears the game-over flag but not gameWon, so the interval that update
      installs never advances the clock. */
  method StartAfterWin(g: Game, hDraws: seq<nat>) returns (frozen: int)
    requires g.Valid() && g.isGameOver && g.gameWon && g.RestaurantLoopExits()
    requires FairDraws(|g.houses|, g.currentHouse, hDraws)
    modifies g
    ensures frozen == 0 && g.time == 0 && g.timerRunning
    ensures g.Valid() && !g.isGameOver && g.gameWon
  {
    g.Start(hDraws);
    g.Update();
    var _ := g.Tick();
    frozen := g.time;
  }

  /** reset after any game, won or lost, clears gameWon: once update installs the interval, each
      tick advances the clock again. */
  method ResetRestartsClock(g: Game, hDraws: seq<nat>) returns (elapsed: int)
    requires g.Valid() && g.RestaurantLoopExits()
    requires FairDraws(|g.houses|, g.currentHouse, hDraws)
    modifies g
    ensures elapsed == 1 && g.timeRemaining == TimeLimit - 1
    ensures g.Valid() && !g.isGameOver && !g.gameWon && g.timerRunning
  {
    g.Reset(hDraws);
    g.Update();
    var _ := g.Tick();
    elapsed := g.time;
  }

  /** togglePause twice leaves the pause flag as it was, and it is the only field the two calls
      may change; they return opposite values. */
  method PauseTwice(g: Game) returns (first: bool, second: bool)
    requires g.Valid()
    modifies g`isPaused
    ensures g.Valid() && g.isPaused == old(g.isPaused)
    ensures first == !old(g.isPaused) && second == old(g.isPaused)
  {
    first := g.TogglePause();
    second := g.TogglePause();
  }
}
