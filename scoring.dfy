/** The scoring rules of a delivery (Game.deliverPackage): base points, the time bonus and the
    level that rises every third delivery, with the totals they add up to over a game. */
module Scoring {

  /** Seconds allowed for a game (timeLimit). */
  const TimeLimit: int := 180
  /** Deliveries needed to win (deliveryGoal). */
  const DeliveryGoal: int := 5

  function Max(a: int, b: int): int {
    if a >= b then a else b
  }

  /** The level after `deliveries` successful deliveries: 1 at the start, one more every third
      delivery. */
  function LevelFor(deliveries: nat): (level: nat)
    ensures level >= 1
  {
    1 + deliveries / 3
  }

  /** A delivery raises the level exactly when the new count is a multiple of 3, and by one. */
  lemma LevelStep(d: nat)
    ensures LevelFor(d + 1) == if (d + 1) % 3 == 0 then LevelFor(d) + 1 else LevelFor(d)
  {
  }

  /** timeBonus = max(0, 50 - floor(time / 10)) * level. */
  function TimeBonus(level: int, time: int): int {
    Max(0, 50 - time / 10) * level
  }

  /** The points one delivery adds: 100 * level, plus the time bonus when it is positive. */
  function Award(level: int, time: int): int {
    var bonus := TimeBonus(level, time);
    100 * level + if bonus > 0 then bonus else 0
  }

  /** The score after deliveries made at the given elapsed times, each at the level reached by
      the deliveries before it. */
  function TotalScore(times: seq<int>): int {
    if times == [] then 0
    else TotalScore(times[..|times| - 1]) + Award(LevelFor(|times| - 1), times[|times| - 1])
  }

  /** A further delivery adds its award at the level the earlier deliveries reached. */
  lemma TotalScoreAppend(times: seq<int>, t: int)
    ensures TotalScore(times + [t]) == TotalScore(times) + Award(LevelFor(|times|), t)
  {
    assert (times + [t])[..|times|] == times;
  }

  /** The score and level bookkeeping of one more delivery at time t >= 0, at level L reached by
      the earlier deliveries: the points are 100 L plus the positive part of the time bonus, which
      is the award; the score strictly increases; the new level is one more exactly when the new
      count is a multiple of 3. */
  lemma DeliveryStep(times: seq<int>, t: int)
    requires t >= 0
    ensures var level, bonus := LevelFor(|times|), TimeBonus(LevelFor(|times|), t);
            TotalScore(times + [t]) == TotalScore(times) + 100 * level + (if bonus > 0 then bonus else 0) &&
            Award(level, t) == 100 * level + (if bonus > 0 then bonus else 0) &&
            TotalScore(times + [t]) > TotalScore(times) &&
            LevelFor(|times| + 1) == if (|times| + 1) % 3 == 0 then level + 1 else level
  {
    TotalScoreAppend(times, t);
    AwardBounds(LevelFor(|times|), t);
    LevelStep(|times|);
  }

  /** The sum of the levels at which the first d deliveries are made. */
  function LevelSum(d: nat): nat {
    if d == 0 then 0 else LevelSum(d - 1) + LevelFor(d - 1)
  }

  lemma MulBounds(m: int, level: int, lo: int, hi: int)
    requires level >= 1 && lo <= m <= hi
    ensures lo * level <= m * level <= hi * level
  {
  }

  /** One delivery at level L is worth between 100 L and 150 L points; within the time limit at
      least 132 L; after 500 seconds exactly 100 L. */
  lemma AwardBounds(level: int, time: int)
    requires level >= 1 && time >= 0
    ensures 100 * level <= Award(level, time) <= 150 * level
    ensures time <= TimeLimit ==> Award(level, time) >= 132 * level
    ensures time >= 500 ==> Award(level, time) == 100 * level
  {
    var m := Max(0, 50 - time / 10);
    MulBounds(m, level, 0, 50);
    if time <= TimeLimit {
      MulBounds(m, level, 32, 50);
    }
  }

  /** The score of a game lies between 100 and 150 points per level of each delivery; when every
      delivery was made within the time limit it is at least 132 per level; when no delivery earned
      a time bonus it is exactly 100 times the sum of the levels. */
  lemma {:induction false} ScoreBounds(times: seq<int>)
    requires forall k :: 0 <= k < |times| ==> times[k] >= 0
    ensures 100 * LevelSum(|times|) <= TotalScore(times) <= 150 * LevelSum(|times|)
    ensures (forall k :: 0 <= k < |times| ==> times[k] <= TimeLimit) ==>
              TotalScore(times) >= 132 * LevelSum(|times|)
    ensures (forall k :: 0 <= k < |times| ==> times[k] >= 500) ==>
              TotalScore(times) == 100 * LevelSum(|times|)
    decreases |times|
  {
    if times != [] {
      var n := |times| - 1;
      var init := times[..n];
      assert forall k :: 0 <= k < n ==> init[k] == times[k];
      ScoreBounds(init);
      AwardBounds(LevelFor(n), times[n]);
    }
  }

  /** The three deliveries that follow a multiple of three are made at the same level. */
  lemma LevelSumStep(b: nat)
    requires b % 3 == 0
    ensures LevelSum(b + 3) == LevelSum(b) + 3 * LevelFor(b)
  {
    assert LevelFor(b + 1) == LevelFor(b) && LevelFor(b + 2) == LevelFor(b);
    assert LevelSum(b + 2) == LevelSum(b) + 2 * LevelFor(b);
  }

  /** 1 + 2 + ... + q. */
  function Triangle(q: nat): nat {
    if q == 0 then 0 else Triangle(q - 1) + q
  }

  lemma {:induction false} TriangleClosed(q: nat)
    ensures 2 * Triangle(q) == q * (q + 1)
  {
    if q > 0 {
      TriangleClosed(q - 1);
      assert q * (q + 1) == (q - 1) * q + 2 * q;
    }
  }

  /** After 3q deliveries the levels add up to 3 (1 + ... + q) = 3q(q+1)/2: three deliveries at
      each level 1..q. */
  lemma {:induction false} LevelSumOfTriples(q: nat)
    ensures LevelSum(3 * q) == 3 * Triangle(q)
    ensures 2 * LevelSum(3 * q) == 3 * (q * (q + 1))
  {
    if q > 0 {
      LevelSumOfTriples(q - 1);
      LevelSumStep(3 * (q - 1));
    }
    TriangleClosed(q);
  }

  /** A won game (five deliveries, all within the time limit) scores between 924 and 1050 points. */
  lemma WinningScore(times: seq<int>)
    requires |times| == DeliveryGoal
    requires forall k :: 0 <= k < |times| ==> 0 <= times[k] <= TimeLimit
    ensures 924 <= TotalScore(times) <= 1050
  {
    assert LevelSum(5) == 7;
    ScoreBounds(times);
  }
}
