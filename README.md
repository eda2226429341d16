# Delivery game: mission state machine

A Dafny model of the delivery mission of a small Babylon.js driving game (`Examen-01`). The player
picks up a package at a restaurant and delivers it to a house within 180 seconds. Each delivery
scores 100 points per level plus a time bonus. The level rises every third delivery, and the fifth
delivery wins the game. The model covers:

- class `Game` (`Examen-01/src/game.js`) as the Dafny class `Delivery.Game`, a class whose
  methods update its fields in place:
  - the order choice (`createNewOrder`, `getRandomRestaurant`, `getRandomHouse`);
  - pickup and delivery;
  - the one-second clock;
  - pause, game over, `start`, `reset` and `getGameStats`.
- three helpers of `Examen-01/src/utils.js` (`formatTime`, `distance`, `isNear`) as pure functions
  in `GameUtils`.

Modules:

- `GameUtils` (`game_utils.dfy`):
  - "a missing position is infinitely far", with `Extent` standing for a distance that may be
    `Infinity`;
  - the `MM:SS` clock text, with the JavaScript semantics of `Math.floor`, `%`, `toString` and
    `padStart` on integers (see Left out for very large numbers);
  - a parser for that text, used to state the round trip.
- `Scoring` (`scoring.dfy`):
  - the award of one delivery and the level function;
  - `TotalScore`, the score a sequence of delivery times adds up to;
  - bounds on it.
- `Orders` (`orders.dfy`):
  - the "different from the previous one" resampling loop of `createNewOrder`, as a method over
    caller-supplied random draws, proved against `FirstAcceptable`, the first draw that ends it;
  - `getRandomRestaurant`, which always returns the first restaurant, and the restaurant loop as
    written (see Findings);
  - the default house names.
- `Delivery` (`game.dfy`): the class `Game`. Its invariant `Valid` ties these together:
  - the score equals `TotalScore` of the ghost history `deliveryTimes`;
  - the level equals `LevelFor(deliveries)`;
  - the clock lies within the limit;
  - an over game has no interval running.
- `Scenarios` (`scenarios.dfy`): runs built from several calls. Examples are running out the clock,
  pausing twice, `start` after a win, and `reset`.

Inputs from outside the game are parameters:

- The player's position is an `Option<Vec3>`. `None` stands for a missing mesh or position.
- The Euclidean metric is a caller-supplied function `(Vec3, Vec3) -> real`. The model only compares
  its result with the 15 and 25 radii.
- `Math.random` in `getRandomHouse` is replaced by a sequence of indices that the caller supplies
  (`hDraws`). `FairDraws` requires that the sequence eventually contains a draw that ends the loop.
  `getRandomRestaurant` takes no random number.

Timers are state plus explicit steps:

- `timerRunning` means `timerInterval` is not null; `Tick` is the body of its callback.
- `pendingOrders` counts the scheduled 2000 ms `createNewOrder` callbacks, and `FireOrderTimer`
  runs one.
- `pendingDisposals` counts the scheduled 1500 ms package disposals, and `FirePackageTimer` runs
  one.
- The caller may fire these callbacks in any order.

Object identity:

- A restaurant or house is identified by its index in the list the city gave.
- `packagePresent` stands for `currentPackage` not being null.

Two behaviours of the code are kept as written:

- `start` does not reset `gameWon` or `timeRemaining`. After a won game, `start` therefore gives a
  game whose clock never advances (`Scenarios.StartAfterWin`). Only `reset` clears `gameWon`.
- `reset` does not cancel callbacks that are already scheduled. After a reset, a 2000 ms callback
  from before still creates a new order, and a 1500 ms disposal still removes whatever package is
  current then, which may be the one `reset` just created.

## Model

| member | source | states |
|---|---|---|
| GameUtils.Distance | Examen-01/src/utils.js:10-13 | Infinity exactly when either argument is missing; otherwise the metric of the two points |
| GameUtils.MissingIsNeverBelow | Examen-01/src/utils.js:10-13 | with a missing position, the distance is never below any finite bound, so a handover with a missing position is always refused |
| GameUtils.IsNear | Examen-01/src/utils.js:15-18 | false when either object or either position is missing; otherwise true exactly when the metric is strictly below the threshold |
| GameUtils.IsNearDefault | Examen-01/src/utils.js:15-18 | without a threshold, near exactly when both objects and both positions exist and the metric is strictly below 5 |
| GameUtils.PadTwo | Examen-01/src/utils.js:7 | padStart(2, '0'): a string of two or more characters is unchanged; a shorter one is left-filled with '0' to length 2 and keeps its characters at the end |
| GameUtils.JsRem | Examen-01/src/utils.js:6 | JavaScript `%`: for a non-negative dividend, the remainder in 0..b-1 with a == (a div b) * b + r; for a negative dividend, the remainder of the quotient truncated toward zero, a == -((-a) div b) * b + r, in -(b-1)..0 |
| GameUtils.NatToStringDigits | Examen-01/src/utils.js:7 | toString of a natural number is a non-empty digit string that reads back as the number; one digit below 10, two digits from 10 to 99 |
| GameUtils.PaddedNat | Examen-01/src/utils.js:7 | a padded natural number has at least two digits, no ':', and reads back as itself; exactly two characters below 100 |
| GameUtils.FormatTimeFields | Examen-01/src/utils.js:4-8 | for a natural s, the text is the padded s div 60, then ':', then the padded s mod 60; the seconds field has two digits and is in 0..59 |
| GameUtils.FormatTimeRoundTrip | Examen-01/src/utils.js:4-8 | for every natural s, read as an exact integer, parsing the two fields of formatTime(s) as mins * 60 + secs gives back s |
| GameUtils.FormatTimeShape | Examen-01/src/utils.js:5-7 | for s < 6000, the text has length 5 with ':' at index 2; its fields are digits reading s div 60 and s mod 60, and the seconds are below 60 |
| GameUtils.FormatTimeNegative | Examen-01/src/utils.js:5-7 | with JavaScript floor division and truncated `%`, -5 seconds is shown as "-1:-5" |
| Scoring.LevelFor | Examen-01/src/game.js:16 | the level is always at least 1 (1 at the start) |
| Scoring.TotalScoreAppend | Examen-01/src/game.js:239-246 | a further delivery adds its award at the level reached by the deliveries before it |
| Scoring.DeliveryStep | Examen-01/src/game.js:239-251 | one more delivery at time t >= 0 adds 100 L plus the positive part of the time bonus, which is the award; the score strictly increases; the new level is one more exactly when the new count is a multiple of 3 |
| Scoring.LevelStep | Examen-01/src/game.js:250-251 | a delivery raises the level by exactly one when the new count is a multiple of 3, and leaves it otherwise |
| Scoring.AwardBounds | Examen-01/src/game.js:240-246 | one delivery at level L earns between 100 L and 150 L; at least 132 L within the 180 s limit; exactly 100 L from 500 s on |
| Scoring.ScoreBounds | Examen-01/src/game.js:239-251 | the score of any history lies between 100 and 150 times the sum of the levels of its deliveries; at least 132 times that sum when every delivery was within the limit; exactly 100 times when none earned a bonus |
| Scoring.LevelSumStep | Examen-01/src/game.js:250-251 | three consecutive deliveries after a multiple of three are made at the same level |
| Scoring.LevelSumOfTriples | Examen-01/src/game.js:250-251 | after 3q deliveries the levels used add up to 3 (1 + ... + q) = 3q(q+1)/2: three deliveries at each level 1..q |
| Scoring.WinningScore | Examen-01/src/game.js:281-284 | five deliveries within the 180 s limit score between 924 and 1050 points |
| Orders.DrawExcluding | Examen-01/src/game.js:86-88 | the house loop: with no candidate, null and no draw; with one, index 0 after a single draw; with more, the first draw that differs from the current choice; every rejected draw equals the current choice; the pick is a supplied draw below the count, and it is FirstAcceptable of the draws |
| Orders.FirstAcceptable | Examen-01/src/game.js:86-88 | the reference for the house loop: the first supplied draw that ends it, which is a supplied draw that ends it; null exactly when no draw does |
| Orders.FirstAcceptableAt | Examen-01/src/game.js:86-88 | when every draw before position i is rejected and the draw at i ends the loop, that draw is FirstAcceptable |
| Orders.FirstRestaurant | Examen-01/src/game.js:117-126 | getRandomRestaurant: null without restaurants, otherwise always index 0 |
| Orders.RestaurantLoopAsWritten | Examen-01/src/game.js:82-84 | the restaurant do-while as written: if it exits, its pick is the first restaurant and differs from the current one when there are two or more; it exits after one iteration unless there are two or more restaurants and the first is current; in that case it never exits |
| Orders.WithName | Examen-01/src/game.js:136-140 | the drawn house keeps its name when it has one; otherwise it gets the default name of its index modulo 4; no other house and no position changes |
| Delivery.Game.constructor | Examen-01/src/game.js:8-37 | score 0, no deliveries, level 1, time 0, 180 s remaining, not paused, over or won, no package, no interval, no city, no player, no order |
| Delivery.Game.Init | Examen-01/src/game.js:39-63 | takes the city's restaurants and houses, has a player, and creates the first order: the first restaurant and the first supplied house draw (each null only when its list is empty), the house named, and a package when the restaurant has a position; the invariant holds |
| Delivery.Game.CreateNewOrder | Examen-01/src/game.js:77-115 | keeps the invariant; the restaurant is the first one, different from the previous one when there are two or more; the house is the first supplied draw that ends its loop: with more than one house a different one, with one that one, with none null; only the chosen house may receive a default name; a package is placed exactly when the new restaurant has a position |
| Delivery.Game.ChooseOrder | Examen-01/src/game.js:80-91 | the two resampling loops: the restaurant loop ends after one pass on the first restaurant; the house is the first supplied draw that ends its loop, different from the previous one when there is more than one house, the only one when there is one, null when there is none; only the chosen house may receive a default name; the order invariant holds |
| Delivery.Game.CreatePackage | Examen-01/src/game.js:145-161 | when the current restaurant exists and has a position, a package is present and not carried; otherwise the package and the carried flag do not change |
| Delivery.Game.PickupPackage | Examen-01/src/game.js:163-213 | succeeds exactly when no package is carried, a package and a restaurant exist, and the distance is strictly below 15; then the package is carried; otherwise nothing changes; the hint is shown exactly when the guards pass and 15 <= distance < 25 |
| Delivery.Game.DeliverPackage | Examen-01/src/game.js:215-304 | succeeds exactly when a package is carried and exists, a house exists, and the distance is strictly below 15; then the award of the level before the delivery is added, and the delivery count and the level are updated (see DeliverEffect); otherwise nothing changes; the score never decreases; the hint is shown exactly in the 15..25 band |
| Delivery.Game.RecordDelivery | Examen-01/src/game.js:234-252 | the package is no longer carried; deliveries + 1; score + 100 L + the positive time bonus, with L the level before the delivery; the score strictly increases; the level rises by one exactly when the new count is a multiple of 3; the invariant on the score history is kept |
| Delivery.Game.ScheduleAfterDelivery | Examen-01/src/game.js:261-291 | one more disposal is scheduled; at 5 or more deliveries the game is over and won, the interval is stopped and no order is scheduled; otherwise one more order is scheduled and the game flags are unchanged |
| Delivery.Game.Update | Examen-01/src/game.js:306-318 | when not paused and not over, an interval is installed if none was; otherwise nothing changes |
| Delivery.Game.Tick | Examen-01/src/game.js:325-344 | paused, over or won: nothing changes and no warning; otherwise time + 1 and remaining = max(0, 180 - time); the game ends lost exactly when the remaining time reaches 0; the warning is the remaining time when it is 60, 30 or 10; the invariant holds |
| Delivery.Game.GameOver | Examen-01/src/game.js:348-366 | the game is over, won as given, and the interval is cleared |
| Delivery.Game.HandleSpacePress | Examen-01/src/game.js:368-378 | paused, over or without a player: nothing changes; otherwise the effect of a delivery attempt when carrying and of a pickup attempt when not |
| Delivery.Game.Start | Examen-01/src/game.js:404-428 | score, deliveries, level and time back to 0, 0, 1, 0; not paused, not over, no interval; a new order as createNewOrder makes it |
| Delivery.Game.ClearProgress | Examen-01/src/game.js:406-417 | the counters and the clock at their initial values, no pause, not over, no interval; the score invariant holds for the empty history |
| Delivery.Game.TogglePause | Examen-01/src/game.js:430-443 | flips the pause flag and returns the new value |
| Delivery.Game.Reset | Examen-01/src/game.js:445-481 | the constructor's counters, flags and clock (180 s remaining, not won, no package carried, no interval); then a new order; a package is present exactly when the new restaurant has a position |
| Delivery.Game.FireOrderTimer | Examen-01/src/game.js:287-289 | one scheduled order callback runs: one fewer pending, and a new order as createNewOrder makes it |
| Delivery.Game.FirePackageTimer | Examen-01/src/game.js:261-266 | one scheduled disposal runs: one fewer pending, and no package is present |
| Delivery.Game.GetGameStats | Examen-01/src/game.js:483-498 | the snapshot has the goal 5 and the limit 180; remaining time and elapsed time lie within the limit; the level follows the delivery count; the score lies between 132 and 150 points per level of each delivery; the names of the sites, or "Ninguno"/"Ninguna" without them; a current house always has a name |
| Scenarios.WarningsBetween | Examen-01/src/game.js:336-343 | at most three warnings; from the start to the limit they are 60, 30, 10 in that order; none when no time elapses |
| Scenarios.RunOutTheClock | Examen-01/src/game.js:325-344 | a running game with no pause and no delivery is lost after exactly 180 minus the elapsed time ticks: time 180, 0 remaining, not won, interval cleared, and the warnings announced in between |
| Scenarios.StartAfterWin | Examen-01/src/game.js:404-428 | start after a won game leaves gameWon set, so after update installs the interval a tick leaves the clock at 0 |
| Scenarios.ResetRestartsClock | Examen-01/src/game.js:445-481 | after reset and update, a tick advances the clock to 1 with 179 s remaining, in a game neither over nor won |
| Scenarios.PauseTwice | Examen-01/src/game.js:430-443 | togglePause twice leaves the pause flag as it was and changes no other field; the two calls return opposite values |

## Left out

- Rendering and engine calls are not modelled: mesh parenting, the position and scaling of the
  package, `flashMesh`, `showNotification`, `console.log`, `updateUI`, `setupCollisions`, and the
  animation-group pause and restart in `togglePause`. None of them changes the mission state.
- `createPackage` is modelled only for its effect on `hasPackage` and on whether a package exists.
  The disposal of the old mesh is not modelled. After that disposal the reference is still not null,
  and the model keeps `packagePresent` unchanged, as the code does.
- The 1500 ms destination notification of `createNewOrder` has no effect on the state and is not
  modelled.
- The Euclidean distance (`BABYLON.Vector3.Distance`) is the caller-supplied `metric`. Its
  floating-point values and `toFixed` formatting are not modelled.
- `pickupPackage` and `deliverPackage` throw a `TypeError` when there is no player. The model reads
  a missing player position as `None`, which gives an infinite distance and refusal.
  `handleSpacePress`, the only caller modelled, checks for the player first.
- `getRandomHouse` names a house by `indexOf(house) % 4`. The model uses the drawn index. The two
  differ only if the same house object appears twice in the list, which the city never builds.
- `Init` assumes that the sites of a new city are never identical to the previous ones, so its
  draws exclude nothing. `init` runs once, on a fresh game, where the current sites are null.
- `handleKeyPress` is not modelled. It belongs to the keyboard wiring in `Examen-01/src/main.js`,
  which is not part of this model. Its space branch repeats the dispatch of `handleSpacePress`
  without the pause and game-over checks. Its 'r' branch only moves the player.
- `player.resetPosition`, `player.update` and all of `Examen-01/src/player.js`,
  `Examen-01/src/city.js`, `Examen-01/src/ui.js` and `Examen-01/src/main.js` are not part of this
  model. They hold engine setup, physics with real numbers, DOM drawing and event wiring.
- `formatTime` is modelled for integer seconds only. The game passes integer counts; fractional
  seconds are not modelled.
- Real time is not modelled. The 1000 ms interval and the 1500 ms and 2000 ms timeouts are explicit
  steps that the caller may take in any order. The real delays order a disposal before the order
  created by the same delivery; the model allows both orders.
- Delivery.Game.CreateNewOrder: the number of random draws the house loop consumes is known to
  `Orders.DrawExcluding` but not exported in this contract. The contract states which supplied
  draw was chosen, not how many were used.
- Delivery.Game.ChooseOrder, Delivery.Game.CreateNewOrder, Delivery.Game.Start,
  Delivery.Game.Reset and Delivery.Game.FireOrderTimer require `RestaurantLoopExits`: with two or
  more restaurants and the first one current, the restaurant loop of `createNewOrder` never ends
  (see Findings), and a method that does not return is not modelled.
- GameUtils.FormatTimeRoundTrip: JavaScript numbers are doubles. `toString` switches to exponent
  notation from 1e21 and `Math.floor(s / 60)` is inexact above 2^53, so the round trip holds for
  the code only below those bounds. The model uses exact integers. The game only formats the
  elapsed and remaining seconds, which stay within 0..180.

## Findings

| source | as written | input that shows it | evidently intended | confidence | as-written member | corrected member |
|---|---|---|---|---|---|---|
| Examen-01/src/game.js:82-84 | `getRandomRestaurant` always returns `restaurants[0]`, and the restaurant loop repeats while there is more than one restaurant and the draw equals the current restaurant | a city with 2 or more restaurants: the first order picks `restaurants[0]`; the second `createNewOrder` (after a delivery, `start` or `reset`) loops forever | draw a restaurant at random, like the house, so the loop ends on a different restaurant | not executed; latent, since the city builds a single restaurant, and with one restaurant both versions pick index 0 | Orders.RestaurantLoopAsWritten | Orders.DrawExcluding |

The class keeps the restaurant choice as written and requires `RestaurantLoopExits`. The corrected
loop is `Orders.DrawExcluding`, which the class uses for the house.
