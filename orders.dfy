/** Choosing the restaurant and house of a new order (Game.createNewOrder, getRandomRestaurant,
    getRandomHouse). A random draw is an index below the number of candidates, supplied by the
    caller in the order the random source produces them. */
module Orders {
  import opened GameUtils

  /** A draw that ends the "not the same as last time" loop: with a single candidate every draw
      does; otherwise any draw other than the current choice. */
  predicate Acceptable(count: nat, current: Option<nat>, d: nat) {
    count == 1 || Some(d) != current
  }

  /** What the random source is assumed to deliver: indices below `count`, and, when there is a
      candidate at all, eventually a draw that ends the loop. */
  predicate FairDraws(count: nat, current: Option<nat>, draws: seq<nat>) {
    (forall k :: 0 <= k < |draws| ==> draws[k] < count) &&
    (count >= 1 ==> exists k :: 0 <= k < |draws| && Acceptable(count, current, draws[k]))
  }

  /** The first draw of `draws` that ends the loop, if any: the reference the loop is proved
      against. */
  function FirstAcceptable(count: nat, current: Option<nat>, draws: seq<nat>): (r: Option<nat>)
    ensures r.Some? ==> r.value in draws && Acceptable(count, current, r.value)
    ensures r.None? <==> forall k :: 0 <= k < |draws| ==> !Acceptable(count, current, draws[k])
  {
    if draws == [] then None
    else if Acceptable(count, current, draws[0]) then Some(draws[0])
    else FirstAcceptable(count, current, draws[1..])
  }

  /** When every draw before index `i` is rejected and the one at `i` ends the loop, it is the
      first acceptable draw. */
  lemma {:induction false} FirstAcceptableAt(count: nat, current: Option<nat>, draws: seq<nat>, i: nat)
    requires i < |draws| && Acceptable(count, current, draws[i])
    requires forall k :: 0 <= k < i ==> !Acceptable(count, current, draws[k])
    ensures FirstAcceptable(count, current, draws) == Some(draws[i])
  {
    if i > 0 {
      assert !Acceptable(count, current, draws[0]);
      FirstAcceptableAt(count, current, draws[1..], i - 1);
    }
  }

  /** The do-while loop of createNewOrder: draw, and draw again while there is more than one
      candidate and the draw is the current one. `used` is the number of draws consumed.
      Without candidates the draw is null and no random number is taken. */
  method DrawExcluding(count: nat, current: Option<nat>, draws: seq<nat>) returns (pick: Option<nat>, used: nat)
    requires FairDraws(count, current, draws)
    ensures count == 0 ==> pick == None && used == 0
    ensures count >= 1 ==> 1 <= used <= |draws| && pick == Some(draws[used - 1]) && pick.value < count
    ensures count == 1 ==> pick == Some(0) && used == 1
    ensures count > 1 ==> pick != current
    ensures forall k :: 0 <= k < used - 1 ==> Some(draws[k]) == current
    ensures count >= 1 ==> pick == FirstAcceptable(count, current, draws)
  {
    if count == 0 {
      return None, 0;
    }
    ghost var w :| 0 <= w < |draws| && Acceptable(count, current, draws[w]);
    pick, used := Some(draws[0]), 1;
    while count > 1 && pick == current
      invariant 1 <= used <= w + 1 && (count == 1 ==> used == 1)
      invariant pick == Some(draws[used - 1])
      invariant forall k :: 0 <= k < used - 1 ==> Some(draws[k]) == current
      decreases w + 1 - used
    {
      pick, used := Some(draws[used]), used + 1;
    }
    FirstAcceptableAt(count, current, draws, used - 1);
  }

  /** getRandomRestaurant as written: null without restaurants, otherwise always the first one,
      whatever the random source says. */
  function FirstRestaurant(count: nat): (r: Option<nat>)
    ensures r.Some? <==> count > 0
    ensures r.Some? ==> r.value == 0
  {
    if count == 0 then None else Some(0)
  }

  /** The restaurant loop of createNewOrder as written, run for at most `fuel` iterations.
      `exited` tells whether the loop condition became false. Because every draw is the first
      restaurant, once that restaurant is the current one and there are two or more, the loop
      never exits. */
  method RestaurantLoopAsWritten(count: nat, current: Option<nat>, fuel: nat) returns (pick: Option<nat>, exited: bool)
    ensures exited ==> pick == FirstRestaurant(count) && (count <= 1 || pick != current)
    ensures fuel >= 1 && !(count > 1 && current == Some(0)) ==> exited
    ensures count > 1 && current == Some(0) ==> !exited
  {
    pick, exited := None, false;
    var i := 0;
    while i < fuel && !exited
      invariant i <= fuel
      invariant i >= 1 ==> pick == FirstRestaurant(count)
      invariant exited <==> i >= 1 && !(count > 1 && pick == current)
    {
      pick := FirstRestaurant(count);
      exited := !(count > 1 && pick == current);
      i := i + 1;
    }
  }

  /** Names getRandomHouse gives a house that has none, by its index modulo 4. */
  const DefaultHouseNames: seq<string> := ["Casa Smith", "Apartamento Jones", "Villa García", "Residencia López"]

  /** The drawn house gets a default name when its name is missing; nothing else changes. */
  function WithName(houses: seq<Entity>, i: nat): (r: seq<Entity>)
    requires i < |houses|
    ensures |r| == |houses| && r[i].name != "" && r[i].position == houses[i].position
    ensures houses[i].name != "" ==> r == houses
    ensures houses[i].name == "" ==> r[i].name == DefaultHouseNames[i % 4]
    ensures forall j :: 0 <= j < |houses| && j != i ==> r[j] == houses[j]
  {
    if houses[i].name != "" then houses
    else houses[i := houses[i].(name := DefaultHouseNames[i % |DefaultHouseNames|])]
  }
}
