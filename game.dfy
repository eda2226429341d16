/** The delivery mission of the game (class Game): one order at a time from a restaurant to a
    house, pickup and delivery within a radius, scoring, levels, a one-second countdown, pause,
    win and loss.

    The engine is not modelled. The player's position is an argument of the operations that
    measure a distance, and the Euclidean metric is supplied by the caller. Timers become state
    and explicit steps: `timerRunning` stands for a live one-second interval, `Tick` is its
    callback; `pendingOrders` and `pendingDisposals` count the 2000 ms "create a new order" and
    1500 ms "dispose of the delivered package" callbacks that are scheduled and have not run,
    and `FireOrderTimer` and `FirePackageTimer` run one of them. Random draws are index
    sequences supplied by the caller. A restaurant or house is identified by its index in the
    list the city provides. */
module Delivery {
  import opened GameUtils
  import opened Scoring
  import opened Orders

  /** A package is picked up or delivered strictly closer than this. */
  const HandoverRadius: real := 15.0
  /** Strictly closer than this, but not within the handover radius, a "move closer" hint is shown. */
  const HintRadius: real := 25.0

  /** The snapshot getGameStats returns. */
  datatype Stats = Stats(
    score: int, deliveries: int, deliveryGoal: int, level: int, time: int,
    timeRemaining: int, timeLimit: int, hasPackage: bool, isGameOver: bool, gameWon: bool,
    currentRestaurant: string, currentHouse: string)

  class Game {
    var score: int
    var deliveries: int
    var level: int
    /** Seconds elapsed since the last start or reset. */
    var time: int
    var timeRemaining: int
    var isPaused: bool
    var isGameOver: bool
    var gameWon: bool
    var hasPackage: bool
    /** A one-second interval is installed (timerInterval is not null). */
    var timerRunning: bool
    /** A package object exists (currentPackage is not null). */
    var packagePresent: bool
    /** The player exists (set by init). */
    var hasPlayer: bool
    var restaurants: seq<Entity>
    var houses: seq<Entity>
    var currentRestaurant: Option<nat>
    var currentHouse: Option<nat>
    /** Scheduled createNewOrder callbacks that have not run yet. */
    var pendingOrders: nat
    /** Scheduled package-disposal callbacks that have not run yet. */
    var pendingDisposals: nat
    /** The elapsed time at each delivery since the last start or reset. */
    ghost var deliveryTimes: seq<int>

    /** The invariant: the clock, the score bookkeeping and the current order are consistent. */
    ghost predicate Valid()
      reads this
    {
      ClockValid() && ScoreValid() && OrderValid()
    }

    /** The clock stays within the limit and the game is over when it is spent; an over game has no
        interval. */
    ghost predicate ClockValid()
      reads this`time, this`timeRemaining, this`isGameOver, this`timerRunning
    {
      0 <= time <= TimeLimit && 0 <= timeRemaining <= TimeLimit &&
      (time == TimeLimit ==> isGameOver) && (isGameOver ==> !timerRunning)
    }

    /** The level is determined by the deliveries, and the score is the sum of the awards of the
        deliveries made, each at an elapsed time no later than now. */
    ghost predicate ScoreValid()
      reads this`time, this`score, this`deliveries, this`level, this`deliveryTimes
    {
      deliveries == |deliveryTimes| && level == LevelFor(|deliveryTimes|) &&
      (forall k :: 0 <= k < |deliveryTimes| ==> 0 <= deliveryTimes[k] <= time) &&
      score == TotalScore(deliveryTimes)
    }

    /** The current order indexes existing sites, and the current house has a name. */
    ghost predicate OrderValid()
      reads this`restaurants, this`houses, this`currentRestaurant, this`currentHouse
    {
      (currentRestaurant.Some? ==> currentRestaurant.value < |restaurants|) &&
      (currentHouse.Some? ==> currentHouse.value < |houses| && houses[currentHouse.value].name != "")
    }

    /** The counters and flags as the constructor and reset leave them. */
    predicate Restarted()
      reads this
    {
      score == 0 && deliveries == 0 && level == 1 && time == 0 && timeRemaining == TimeLimit &&
      !isPaused && !isGameOver && !gameWon && !timerRunning
    }

    /** The current restaurant exists and has a position, so createPackage places a package. */
    predicate RestaurantPlaced()
      reads this
    {
      currentRestaurant.Some? && currentRestaurant.value < |restaurants| &&
      restaurants[currentRestaurant.value].position.Some?
    }

    function RestaurantDistance(player: Option<Vec3>, metric: (Vec3, Vec3) -> real): Extent
      reads this
    {
      if currentRestaurant.Some? && currentRestaurant.value < |restaurants|
      then Distance(player, restaurants[currentRestaurant.value].position, metric)
      else Infinite
    }

    function HouseDistance(player: Option<Vec3>, metric: (Vec3, Vec3) -> real): Extent
      reads this
    {
      if currentHouse.Some? && currentHouse.value < |houses|
      then Distance(player, houses[currentHouse.value].position, metric)
      else Infinite
    }

    /** The guards of pickupPackage pass. */
    predicate MayPickup()
      reads this
    {
      !hasPackage && packagePresent && currentRestaurant.Some?
    }

    /** The guards of deliverPackage pass. */
    predicate MayDeliver()
      reads this
    {
      hasPackage && packagePresent && currentHouse.Some?
    }

    /** The fields a press of the space bar may change (the frame of deliverPackage) keep their
        values. */
    twostate predicate MissionUnchanged()
      reads this
    {
      hasPackage == old(hasPackage) && ProgressUnchanged()
    }

    /** The restaurant loop of createNewOrder ends: getRandomRestaurant always returns the first
        restaurant, so with two or more the loop runs forever once that one is current. */
    predicate RestaurantLoopExits()
      reads this
    {
      |restaurants| <= 1 || currentRestaurant != Some(0)
    }

    /** What createNewOrder makes of the order, given the houses and the current sites before it:
        the first restaurant (null without restaurants), which differs from the previous one when
        there are two or more; the first house of the supplied draws that ends the house loop, so
        with more than one house a different one from before, with exactly one that one, with none
        null. Only the chosen house may have received a default name. */
    predicate OrderChosen(prevHouses: seq<Entity>, prevRestaurant: Option<nat>, prevHouse: Option<nat>,
                          hDraws: seq<nat>)
      reads this
    {
      |houses| == |prevHouses| &&
      currentRestaurant == FirstRestaurant(|restaurants|) &&
      (|restaurants| > 1 ==> currentRestaurant != prevRestaurant) &&
      (|houses| == 0 <==> currentHouse.None?) &&
      (currentHouse.Some? ==> currentHouse == FirstAcceptable(|houses|, prevHouse, hDraws) &&
                              currentHouse.value < |houses| &&
                              houses == WithName(prevHouses, currentHouse.value)) &&
      (currentHouse.None? ==> houses == prevHouses) &&
      (|houses| == 1 ==> currentHouse == Some(0)) &&
      (|houses| > 1 ==> currentHouse != prevHouse)
    }

    /** The fields of the mission other than the carried package keep their values. */
    twostate predicate ProgressUnchanged()
      reads this
    {
      deliveries == old(deliveries) && score == old(score) &&
      level == old(level) && deliveryTimes == old(deliveryTimes) &&
      pendingDisposals == old(pendingDisposals) && pendingOrders == old(pendingOrders) &&
      isGameOver == old(isGameOver) && gameWon == old(gameWon) && timerRunning == old(timerRunning)
    }

    /** The effect of pickupPackage within the frame of deliverPackage: when its guards pass and
        the restaurant is strictly within the handover radius, the package is carried; otherwise
        nothing changes. */
    twostate predicate PickupEffect(player: Option<Vec3>, metric: (Vec3, Vec3) -> real)
      reads this
    {
      if old(MayPickup()) && Below(old(RestaurantDistance(player, metric)), HandoverRadius) then
        hasPackage && ProgressUnchanged()
      else
        MissionUnchanged()
    }

    /** The effect of deliverPackage: when its guards pass and the house is strictly within the
        handover radius, the package is dropped, one more delivery is counted, the award of the
        level before the delivery and of the elapsed time is added, the level rises when the count
        becomes a multiple of 3, a package disposal is scheduled, and either the game is won (at the
        delivery goal: timer stopped, no new order scheduled) or a new order is scheduled.
        Otherwise nothing changes. */
    twostate predicate DeliverEffect(player: Option<Vec3>, metric: (Vec3, Vec3) -> real)
      reads this
    {
      if old(MayDeliver()) && Below(old(HouseDistance(player, metric)), HandoverRadius) then
        !hasPackage &&
        deliveries == old(deliveries) + 1 &&
        score == old(score) + Award(old(level), old(time)) &&
        level == (if deliveries % 3 == 0 then old(level) + 1 else old(level)) &&
        deliveryTimes == old(deliveryTimes) + [old(time)] &&
        pendingDisposals == old(pendingDisposals) + 1 &&
        if deliveries >= DeliveryGoal
        then isGameOver && gameWon && !timerRunning && pendingOrders == old(pendingOrders)
        else isGameOver == old(isGameOver) && gameWon == old(gameWon) &&
             timerRunning == old(timerRunning) && pendingOrders == old(pendingOrders) + 1
      else
        MissionUnchanged()
    }

    /** The state of a new game object: no city, no player, no order yet. */
    constructor ()
      ensures Valid() && Restarted() && !hasPackage && deliveryTimes == []
      ensures restaurants == [] && houses == [] && currentRestaurant == None && currentHouse == None
      ensures !packagePresent && !hasPlayer && pendingOrders == 0 && pendingDisposals == 0
    {
      score, deliveries, level, time := 0, 0, 1, 0;
      timeRemaining := TimeLimit;
      isPaused, isGameOver, gameWon, hasPackage := false, false, false, false;
      timerRunning, packagePresent, hasPlayer := false, false, false;
      restaurants, houses := [], [];
      currentRestaurant, currentHouse := None, None;
      pendingOrders, pendingDisposals := 0, 0;
      deliveryTimes := [];
    }

    /** init: takes the restaurants and houses of the city, creates the player and the first order.
        The sites of a previous city are never identical to the new ones, so the draws exclude
        nothing. */
    method Init(cityRestaurants: seq<Entity>, cityHouses: seq<Entity>, hDraws: seq<nat>)
      requires Valid()
      requires FairDraws(|cityHouses|, None, hDraws)
      modifies this`restaurants, this`houses, this`hasPlayer, this`currentRestaurant, this`currentHouse
      modifies this`packagePresent, this`hasPackage
      ensures Valid() && hasPlayer && restaurants == cityRestaurants
      ensures OrderChosen(cityHouses, None, None, hDraws)
      ensures if RestaurantPlaced() then packagePresent && !hasPackage
              else packagePresent == old(packagePresent) && hasPackage == old(hasPackage)
    {
      restaurants, houses := cityRestaurants, cityHouses;
      hasPlayer := true;
      currentRestaurant, currentHouse := None, None;
      CreateNewOrder(hDraws);
    }

    /** createNewOrder: take the first restaurant, draw a house different from the current one,
        then createPackage. The restaurant loop must end, which it does unless there are two or
        more restaurants and the first one is current. */
    method CreateNewOrder(hDraws: seq<nat>)
      requires Valid()
      requires RestaurantLoopExits()
      requires FairDraws(|houses|, currentHouse, hDraws)
      modifies this`houses, this`currentRestaurant, this`currentHouse, this`packagePresent, this`hasPackage
      ensures Valid()
      ensures OrderChosen(old(houses), old(currentRestaurant), old(currentHouse), hDraws)
      ensures if RestaurantPlaced() then packagePresent && !hasPackage
              else packagePresent == old(packagePresent) && hasPackage == old(hasPackage)
    {
      ChooseOrder(hDraws);
      CreatePackage();
    }

    /** The two resampling loops of createNewOrder: the restaurant loop ends after its single
        pass with the first restaurant; the house loop draws until the draw is acceptable. Rejected
        house draws are the current house,
        which already has a name, so only the chosen house can receive a default name. */
    method ChooseOrder(hDraws: seq<nat>)
      requires OrderValid()
      requires RestaurantLoopExits()
      requires FairDraws(|houses|, currentHouse, hDraws)
      modifies this`houses, this`currentRestaurant, this`currentHouse
      ensures OrderValid()
      ensures OrderChosen(old(houses), old(currentRestaurant), old(currentHouse), hDraws)
    {
      var r := FirstRestaurant(|restaurants|);
      var h, _ := DrawExcluding(|houses|, currentHouse, hDraws);
      if h.Some? {
        houses := WithName(houses, h.value);
      }
      currentRestaurant, currentHouse := r, h;
    }

    /** createPackage, as far as the mission goes: a package is placed at the current restaurant
        when it has a position, and it is not carried; otherwise nothing changes. */
    method CreatePackage()
      requires OrderValid()
      modifies this`packagePresent, this`hasPackage
      ensures if RestaurantPlaced() then packagePresent && !hasPackage
              else packagePresent == old(packagePresent) && hasPackage == old(hasPackage)
    {
      if currentRestaurant.Some? && restaurants[currentRestaurant.value].position.Some? {
        packagePresent, hasPackage := true, false;
      }
    }

    /** pickupPackage: `ok` is its result; `hint` tells whether the "move closer" warning was shown. */
    method PickupPackage(player: Option<Vec3>, metric: (Vec3, Vec3) -> real) returns (ok: bool, hint: bool)
      requires Valid()
      modifies this`hasPackage
      ensures Valid()
      ensures ok <==> old(MayPickup()) && Below(old(RestaurantDistance(player, metric)), HandoverRadius)
      ensures hasPackage == (old(hasPackage) || ok)
      ensures hint <==> old(MayPickup()) && !Below(old(RestaurantDistance(player, metric)), HandoverRadius) &&
                        Below(old(RestaurantDistance(player, metric)), HintRadius)
    {
      if hasPackage || !packagePresent || currentRestaurant.None? {
        return false, false;
      }
      var d := RestaurantDistance(player, metric);
      if Below(d, HandoverRadius) {
        hasPackage := true;
        return true, false;
      }
      return false, Below(d, HintRadius);
    }

    /** deliverPackage: `ok` is its result; `hint` tells whether the "move closer" warning was shown. */
    method DeliverPackage(player: Option<Vec3>, metric: (Vec3, Vec3) -> real) returns (ok: bool, hint: bool)
      requires Valid()
      modifies this`hasPackage, this`deliveries, this`score, this`level, this`deliveryTimes
      modifies this`pendingDisposals, this`pendingOrders, this`isGameOver, this`gameWon, this`timerRunning
      ensures Valid()
      ensures DeliverEffect(player, metric)
      ensures ok <==> old(MayDeliver()) && Below(old(HouseDistance(player, metric)), HandoverRadius)
      ensures score >= old(score)
      ensures hint <==> old(MayDeliver()) && !Below(old(HouseDistance(player, metric)), HandoverRadius) &&
                        Below(old(HouseDistance(player, metric)), HintRadius)
    {
      ok, hint := false, false;
      if hasPackage && packagePresent && currentHouse.Some? {
        var d := HouseDistance(player, metric);
        if Below(d, HandoverRadius) {
          RecordDelivery();
          ScheduleAfterDelivery();
          ok := true;
        } else {
          hint := Below(d, HintRadius);
        }
      }
    }

    /** What follows a successful delivery: the package disposal is scheduled; at the delivery goal
        the game is won and nothing more is scheduled, otherwise a new order is. */
    method ScheduleAfterDelivery()
      requires ScoreValid() && OrderValid() && 0 <= time <= TimeLimit && 0 <= timeRemaining <= TimeLimit
      requires time == TimeLimit ==> isGameOver
      requires isGameOver ==> !timerRunning
      modifies this`pendingDisposals, this`pendingOrders, this`isGameOver, this`gameWon, this`timerRunning
      ensures Valid()
      ensures pendingDisposals == old(pendingDisposals) + 1
      ensures if deliveries >= DeliveryGoal
              then isGameOver && gameWon && !timerRunning && pendingOrders == old(pendingOrders)
              else isGameOver == old(isGameOver) && gameWon == old(gameWon) &&
                   timerRunning == old(timerRunning) && pendingOrders == old(pendingOrders) + 1
    {
      pendingDisposals := pendingDisposals + 1;
      if deliveries >= DeliveryGoal {
        GameOver(true);
        return;
      }
      pendingOrders := pendingOrders + 1;
    }

    /** The bookkeeping of a successful delivery: the package is no longer carried, one more
        delivery is counted, 100 points per level plus the time bonus of the elapsed time are added
        at the level before the delivery, and the level rises when the new count is a multiple of 3. */
    method RecordDelivery()
      requires ScoreValid() && time >= 0
      modifies this`hasPackage, this`deliveries, this`score, this`level, this`deliveryTimes
      ensures ScoreValid()
      ensures !hasPackage && deliveries == old(deliveries) + 1
      ensures score == old(score) + Award(old(level), time) && score > old(score)
      ensures level == (if deliveries % 3 == 0 then old(level) + 1 else old(level))
      ensures deliveryTimes == old(deliveryTimes) + [time]
    {
      ghost var before := deliveryTimes;
      DeliveryStep(before, time);
      hasPackage := false;
      deliveries := deliveries + 1;
      var points := 100 * level;
      score := score + points;
      var timeBonus := TimeBonus(level, time);
      if timeBonus > 0 {
        score := score + timeBonus;
      }
      deliveryTimes := before + [time];
      if deliveries % 3 == 0 {
        level := level + 1;
      }
      assert forall k :: 0 <= k < |deliveryTimes| ==> 0 <= deliveryTimes[k] <= time by {
        forall k | 0 <= k < |deliveryTimes| ensures 0 <= deliveryTimes[k] <= time {
          if k < |before| {
            assert deliveryTimes[k] == before[k];
          }
        }
      }
    }

    /** update, as far as the mission goes: while the game runs, install the one-second interval
        when there is none. */
    method Update()
      requires Valid()
      modifies this`timerRunning
      ensures Valid()
      ensures timerRunning == (old(timerRunning) || !(isPaused || isGameOver))
    {
      if isPaused || isGameOver {
        return;
      }
      if !timerRunning {
        timerRunning := true;
      }
    }

    /** The callback of the one-second interval. Paused, over or won: nothing happens. Otherwise
        one more second elapses, the remaining time is the limit minus the elapsed time floored at
        0, and when it reaches 0 the game is lost. `warning` is the remaining time when it is one
        of the announced thresholds 60, 30 and 10. */
    method Tick() returns (warning: Option<int>)
      requires Valid() && timerRunning
      modifies this`time, this`timeRemaining, this`isGameOver, this`gameWon, this`timerRunning
      ensures Valid()
      ensures old(isPaused || isGameOver || gameWon) ==>
                warning == None && time == old(time) && timeRemaining == old(timeRemaining) &&
                isGameOver == old(isGameOver) && gameWon == old(gameWon) && timerRunning == old(timerRunning)
      ensures !old(isPaused || isGameOver || gameWon) ==>
                time == old(time) + 1 && timeRemaining == Max(0, TimeLimit - time) &&
                (isGameOver <==> timeRemaining == 0) && !gameWon && timerRunning == !isGameOver &&
                warning == (if timeRemaining in {60, 30, 10} then Some(timeRemaining) else None)
    {
      warning := None;
      if !isPaused && !isGameOver && !gameWon {
        time := time + 1;
        timeRemaining := Max(0, TimeLimit - time);
        if timeRemaining <= 0 {
          GameOver(false);
        }
        if timeRemaining == 60 || timeRemaining == 30 || timeRemaining == 10 {
          warning := Some(timeRemaining);
        }
      }
    }

    /** gameOver(won): the game is over, won or lost, and the interval is cleared. */
    method GameOver(won: bool)
      requires ScoreValid() && OrderValid() && 0 <= time <= TimeLimit && 0 <= timeRemaining <= TimeLimit
      modifies this`isGameOver, this`gameWon, this`timerRunning
      ensures Valid()
      ensures isGameOver && gameWon == won && !timerRunning
    {
      isGameOver := true;
      gameWon := won;
      timerRunning := false;
    }

    /** handleSpacePress: ignored while paused, over or without a player; otherwise a delivery
        attempt when carrying the package, else a pickup attempt. */
    method HandleSpacePress(player: Option<Vec3>, metric: (Vec3, Vec3) -> real)
      requires Valid()
      modifies this`hasPackage, this`deliveries, this`score, this`level, this`deliveryTimes
      modifies this`pendingDisposals, this`pendingOrders, this`isGameOver, this`gameWon, this`timerRunning
      ensures Valid()
      ensures old(isPaused || isGameOver || !hasPlayer) ==> MissionUnchanged()
      ensures !old(isPaused || isGameOver || !hasPlayer) && old(hasPackage) ==> DeliverEffect(player, metric)
      ensures !old(isPaused || isGameOver || !hasPlayer) && !old(hasPackage) ==> PickupEffect(player, metric)
    {
      if isPaused || isGameOver || !hasPlayer {
        return;
      }
      if hasPackage {
        var _, _ := DeliverPackage(player, metric);
      } else {
        var _, _ := PickupPackage(player, metric);
      }
    }

    /** start: clears the counters, the pause and the game-over flag, stops the interval and
        creates a new order. It leaves timeRemaining and gameWon as they were. */
    method Start(hDraws: seq<nat>)
      requires Valid()
      requires RestaurantLoopExits()
      requires FairDraws(|houses|, currentHouse, hDraws)
      modifies this`isPaused, this`isGameOver, this`time, this`score, this`deliveries, this`level
      modifies this`deliveryTimes, this`timerRunning
      modifies this`houses, this`currentRestaurant, this`currentHouse, this`packagePresent, this`hasPackage
      ensures Valid()
      ensures score == 0 && deliveries == 0 && level == 1 && time == 0 && deliveryTimes == []
      ensures !isPaused && !isGameOver && !timerRunning
      ensures OrderChosen(old(houses), old(currentRestaurant), old(currentHouse), hDraws)
      ensures if RestaurantPlaced() then packagePresent && !hasPackage
              else packagePresent == old(packagePresent) && hasPackage == old(hasPackage)
    {
      ClearProgress();
      CreateNewOrder(hDraws);
    }

    /** What start and reset both do first: no pause, not over, the clock, the score, the deliveries
        and the level back at their initial values, and the interval cleared. */
    method ClearProgress()
      requires OrderValid()
      modifies this`isPaused, this`isGameOver, this`time, this`score, this`deliveries, this`level
      modifies this`deliveryTimes, this`timerRunning
      ensures ScoreValid() && OrderValid()
      ensures score == 0 && deliveries == 0 && level == 1 && time == 0 && deliveryTimes == []
      ensures !isPaused && !isGameOver && !timerRunning
    {
      isPaused, isGameOver := false, false;
      time, score, deliveries, level := 0, 0, 0, 1;
      deliveryTimes := [];
      timerRunning := false;
    }

    /** togglePause: flips the pause flag and returns its new value. */
    method TogglePause() returns (paused: bool)
      requires Valid()
      modifies this`isPaused
      ensures Valid()
      ensures isPaused == !old(isPaused) && paused == isPaused
    {
      isPaused := !isPaused;
      paused := isPaused;
    }

    /** reset: the state of the constructor for counters, flags and clock, no package carried, no
        interval, then a new order. Callbacks scheduled before are not cancelled. */
    method Reset(hDraws: seq<nat>)
      requires Valid()
      requires RestaurantLoopExits()
      requires FairDraws(|houses|, currentHouse, hDraws)
      modifies this`score, this`deliveries, this`level, this`time, this`deliveryTimes, this`timeRemaining
      modifies this`isPaused, this`isGameOver, this`gameWon, this`timerRunning
      modifies this`houses, this`currentRestaurant, this`currentHouse, this`packagePresent, this`hasPackage
      ensures Valid() && Restarted() && deliveryTimes == []
      ensures OrderChosen(old(houses), old(currentRestaurant), old(currentHouse), hDraws)
      ensures packagePresent == RestaurantPlaced() && !hasPackage
    {
      ClearProgress();
      timeRemaining := TimeLimit;
      gameWon, hasPackage, packagePresent := false, false, false;
      assert Restarted();
      CreateNewOrder(hDraws);
    }

    /** The 2000 ms callback scheduled by a delivery: createNewOrder, whatever happened since. */
    method FireOrderTimer(hDraws: seq<nat>)
      requires Valid() && pendingOrders > 0
      requires RestaurantLoopExits()
      requires FairDraws(|houses|, currentHouse, hDraws)
      modifies this`pendingOrders
      modifies this`houses, this`currentRestaurant, this`currentHouse, this`packagePresent, this`hasPackage
      ensures Valid()
      ensures pendingOrders == old(pendingOrders) - 1
      ensures OrderChosen(old(houses), old(currentRestaurant), old(currentHouse), hDraws)
      ensures if RestaurantPlaced() then packagePresent && !hasPackage
              else packagePresent == old(packagePresent) && hasPackage == old(hasPackage)
    {
      pendingOrders := pendingOrders - 1;
      CreateNewOrder(hDraws);
    }

    /** The 1500 ms callback scheduled by a delivery: disposes of whatever package is current then. */
    method FirePackageTimer()
      requires Valid() && pendingDisposals > 0
      modifies this`pendingDisposals, this`packagePresent
      ensures Valid()
      ensures !packagePresent && pendingDisposals == old(pendingDisposals) - 1
    {
      pendingDisposals := pendingDisposals - 1;
      packagePresent := false;
    }

    /** getGameStats: the snapshot satisfies the invariants of the game: the remaining time lies
        within the limit, the level follows the delivery count, and the score lies between 100 and
        150 points per level of each delivery (at least 132 within the time limit). */
    function GetGameStats(): (s: Stats)
      reads this
      requires Valid()
      ensures s.deliveryGoal == DeliveryGoal && s.timeLimit == TimeLimit
      ensures 0 <= s.timeRemaining <= s.timeLimit && 0 <= s.time <= s.timeLimit
      ensures s.deliveries >= 0 && s.level == LevelFor(s.deliveries)
      ensures 132 * LevelSum(s.deliveries) <= s.score <= 150 * LevelSum(s.deliveries)
      ensures s.currentRestaurant == if currentRestaurant.None? then "Ninguno" else restaurants[currentRestaurant.value].name
      ensures s.currentHouse == if currentHouse.None? then "Ninguna" else houses[currentHouse.value].name
      ensures currentHouse.Some? ==> s.currentHouse != ""
    {
      ScoreBounds(deliveryTimes);
      Stats(score, deliveries, DeliveryGoal, level, time, timeRemaining, TimeLimit, hasPackage,
            isGameOver, gameWon,
            if currentRestaurant.Some? then restaurants[currentRestaurant.value].name else "Ninguno",
            if currentHouse.Some? then houses[currentHouse.value].name else "Ninguna")
    }
  }
}
