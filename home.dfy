/**
 * The spin logic of src/screens/HomeScreen.tsx: weighted winner selection,
 * the target angle that brings the winner under the marker, the forward-only
 * final rotation, the statistics update, and the spinning flag that guards it.
 *
 * Angles are in degrees (the source converts to radians for the animation).
 * `Math.random()` and `Date.now()` are parameters.
 */
module Home {

  import opened Wrappers
  import opened Types

  // ---------------------------------------------------------------------
  // Weighted winner selection
  // ---------------------------------------------------------------------

  /** Specification of the selection walk, searching from position `i`. */
  function WinnerIndexFrom(options: seq<WheelOption>, r: real, i: nat): (k: nat)
    requires i < |options|
    ensures i <= k < |options|
    ensures forall j :: i <= j < k ==> CumulativeWeight(options, j) < r
    ensures CumulativeWeight(options, k) >= r || k == |options| - 1
    decreases |options| - i
  {
    if CumulativeWeight(options, i) >= r || i == |options| - 1 then i
    else WinnerIndexFrom(options, r, i + 1)
  }

  /** Position of the option the walk picks for draw `r`: the first option
      whose cumulative weight reaches `r`, or the last option when none does. */
  function WinnerIndex(options: seq<WheelOption>, r: real): (k: nat)
    requires |options| > 0
    ensures k < |options|
    ensures forall j :: 0 <= j < k ==> CumulativeWeight(options, j) < r
    ensures CumulativeWeight(options, k) >= r || k == |options| - 1
  {
    WinnerIndexFrom(options, r, 0)
  }

  /** The two properties of `WinnerIndex` single out one position. */
  lemma WinnerIndexUnique(options: seq<WheelOption>, r: real, i: nat)
    requires i < |options|
    requires forall j :: 0 <= j < i ==> CumulativeWeight(options, j) < r
    requires CumulativeWeight(options, i) >= r || i == |options| - 1
    ensures WinnerIndex(options, r) == i
  {
  }

  /** `selectWinnerByPercentage`, with the scaled random draw `r` passed in:
      subtract each weight from `r` in list order and stop at the first option
      that brings the remainder to zero or below; fall back to the last one.
      The caller never invokes it on an empty list. */
  method SelectWinnerByPercentage(options: seq<WheelOption>, r: real) returns (winner: WheelOption)
    requires |options| > 0
    ensures winner == options[WinnerIndex(options, r)]
  {
    var random := r;
    var i := 0;
    while i < |options|
      invariant 0 <= i <= |options|
      invariant random == r - PrefixSum(options, i)
      invariant forall j :: 0 <= j < i ==> CumulativeWeight(options, j) < r
    {
      PrefixSumStep(options, i);
      random := random - options[i].percentage;
      if random <= 0.0 {
        WinnerIndexUnique(options, r, i);
        return options[i];
      }
      i := i + 1;
    }
    WinnerIndexUnique(options, r, |options| - 1);
    winner := options[|options| - 1];
  }

  /** With positive weights, option `k` owns the draws in the half-open
      interval (PrefixSum(k), PrefixSum(k + 1)]: a draw on a boundary belongs
      to the earlier option. */
  lemma SelectionOwnsInterval(options: seq<WheelOption>, r: real, k: nat)
    requires AllPositive(options)
    requires k < |options|
    requires 0.0 < r <= Sum(options)
    ensures WinnerIndex(options, r) == k <==> PrefixSum(options, k) < r <= PrefixSum(options, k + 1)
  {
    if PrefixSum(options, k) < r <= PrefixSum(options, k + 1) {
      InIntervalSelected(options, r, k);
    }
    if WinnerIndex(options, r) == k {
      SelectedInInterval(options, r);
    }
  }

  lemma InIntervalSelected(options: seq<WheelOption>, r: real, k: nat)
    requires AllPositive(options)
    requires k < |options|
    requires PrefixSum(options, k) < r <= PrefixSum(options, k + 1)
    ensures WinnerIndex(options, r) == k
  {
    forall j | 0 <= j < k
      ensures CumulativeWeight(options, j) < r
    {
      PrefixSumMonotone(options, j + 1, k);
    }
    WinnerIndexUnique(options, r, k);
  }

  lemma SelectedInInterval(options: seq<WheelOption>, r: real)
    requires |options| > 0
    requires 0.0 < r <= Sum(options)
    ensures var k := WinnerIndex(options, r); PrefixSum(options, k) < r <= PrefixSum(options, k + 1)
  {
    var k := WinnerIndex(options, r);
    PrefixSumAll(options);
    if k > 0 {
      assert CumulativeWeight(options, k - 1) < r;
    }
  }

  /** A draw that is exactly the weight of the first `k` options selects
      option `k - 1`. */
  lemma SelectionAtBoundary(options: seq<WheelOption>, k: nat)
    requires AllPositive(options)
    requires 1 <= k <= |options|
    ensures WinnerIndex(options, PrefixSum(options, k)) == k - 1
  {
    var r := PrefixSum(options, k);
    PrefixSumStrict(options, k - 1, k);
    forall j | 0 <= j < k - 1
      ensures CumulativeWeight(options, j) < r
    {
      PrefixSumStrict(options, j + 1, k);
    }
    WinnerIndexUnique(options, r, k - 1);
  }

  /** A draw no larger than the first weight selects the first option; in
      particular the draw 0 does, even when the first weight is 0. */
  lemma SelectionSmallDraw(options: seq<WheelOption>, r: real)
    requires |options| > 0
    requires r <= options[0].percentage
    ensures WinnerIndex(options, r) == 0
  {
    PrefixSumStep(options, 0);
    WinnerIndexUnique(options, r, 0);
  }

  /** When the walk runs out without the remainder reaching zero, the last
      option is returned. */
  lemma SelectionFallback(options: seq<WheelOption>, r: real)
    requires |options| > 0
    requires AllNonNegative(options)
    requires r > Sum(options)
    ensures WinnerIndex(options, r) == |options| - 1
  {
    PrefixSumAll(options);
    forall j | 0 <= j < |options| - 1
      ensures CumulativeWeight(options, j) < r
    {
      PrefixSumMonotone(options, j + 1, |options|);
    }
    WinnerIndexUnique(options, r, |options| - 1);
  }

  // ---------------------------------------------------------------------
  // Target angle
  // ---------------------------------------------------------------------

  /** Specification of `calculateAngleForWinner`: with slices laid out in
      proportion to the weights from 0 degrees, the rotation that brings the
      middle of the first slice carrying `winnerId` to the marker at 270
      degrees; 0 when the weights sum to 0 or no option carries the id. */
  function TargetAngle(options: seq<WheelOption>, winnerId: string): real
  {
    var total := Sum(options);
    if total == 0.0 then 0.0
    else match FirstIndexOfId(options, winnerId)
      case None => 0.0
      case Some(i) =>
        270.0 - (PrefixSum(options, i) / total * 360.0 + (options[i].percentage / total * 360.0) / 2.0)
  }

  /** With non-negative weights the slice midpoint lies within the first
      turn, so the target angle lies between -90 and 270 degrees. */
  lemma TargetAngleRange(options: seq<WheelOption>, winnerId: string)
    requires AllNonNegative(options)
    ensures -90.0 <= TargetAngle(options, winnerId) <= 270.0
  {
    var total := Sum(options);
    if total != 0.0 {
      match FirstIndexOfId(options, winnerId)
      case None =>
      case Some(i) =>
        PrefixSumAll(options);
        PrefixSumStep(options, i);
        PrefixSumMonotone(options, 0, i);
        PrefixSumMonotone(options, i + 1, |options|);
        var p, w := PrefixSum(options, i), options[i].percentage;
        assert 0.0 <= p && p + w <= total;
        MidpointWithinTurn(p, w, total);
    }
  }

  lemma MidpointWithinTurn(p: real, w: real, total: real)
    requires 0.0 <= p && 0.0 <= w && p + w <= total && total != 0.0
    ensures 0.0 <= p / total * 360.0 + (w / total * 360.0) / 2.0 <= 360.0
  {
    assert total > 0.0;
    ShareAdd(p, w, total);
    ShareBetweenZeroAndOne(p, total);
    ShareBetweenZeroAndOne(w, total);
    ShareBetweenZeroAndOne(p + w, total);
  }

  /** A non-negative part of a positive total is a share between 0 and 1. */
  lemma ShareBetweenZeroAndOne(x: real, total: real)
    requires 0.0 <= x <= total && total > 0.0
    ensures 0.0 <= x / total <= 1.0
  {
    assert x / total * total == x;
  }

  /** `calculateAngleForWinner`: walk the options accumulating slice angles
      and return at the first one whose id matches the winner's. */
  method CalculateAngleForWinner(options: seq<WheelOption>, winner: WheelOption) returns (angle: real)
    ensures angle == TargetAngle(options, winner.id)
  {
    var totalPercentage := Sum(options);
    if totalPercentage == 0.0 {
      return 0.0;
    }
    var accumulatedAngle := 0.0;
    var i := 0;
    while i < |options|
      invariant 0 <= i <= |options|
      invariant accumulatedAngle == PrefixSum(options, i) / totalPercentage * 360.0
      invariant forall j :: 0 <= j < i ==> options[j].id != winner.id
    {
      var sliceAngle := options[i].percentage / totalPercentage * 360.0;
      if options[i].id == winner.id {
        assert FirstIndexOfId(options, winner.id) == Some(i);
        return 270.0 - (accumulatedAngle + sliceAngle / 2.0);
      }
      PrefixSumStep(options, i);
      ScaledSumStep(PrefixSum(options, i), options[i].percentage, totalPercentage);
      accumulatedAngle := accumulatedAngle + sliceAngle;
      i := i + 1;
    }
    return 0.0;
  }

  /** Accumulating scaled weights is scaling the accumulated weight. */
  lemma ScaledSumStep(p: real, w: real, total: real)
    requires total != 0.0
    ensures (p + w) / total * 360.0 == p / total * 360.0 + w / total * 360.0
  {
  }

  // ---------------------------------------------------------------------
  // Final rotation
  // ---------------------------------------------------------------------

  /** `d` is a whole number of turns (in degrees). */
  predicate IsWholeTurns(d: real)
  {
    (d / 360.0).Floor as real * 360.0 == d
  }

  /** A whole number of turns, written as such. */
  lemma WholeTurns(t: int)
    ensures IsWholeTurns(360.0 * t as real)
  {
    assert (360.0 * t as real) / 360.0 == t as real;
  }

  /** JavaScript's `x % 360` on numbers: the remainder takes the sign of `x`. */
  function JsRem360(x: real): (m: real)
    ensures -360.0 < m < 360.0
    ensures x >= 0.0 ==> 0.0 <= m
    ensures x <= 0.0 ==> m <= 0.0
    ensures x - m == 360.0 * TruncatedQuotient360(x) as real
  {
    x - 360.0 * TruncatedQuotient360(x) as real
  }

  /** `x / 360` rounded toward zero. */
  function TruncatedQuotient360(x: real): (t: int)
    ensures x >= 0.0 ==> 0.0 <= x - 360.0 * t as real < 360.0
    ensures x <= 0.0 ==> -360.0 < x - 360.0 * t as real <= 0.0
  {
    if x >= 0.0 then (x / 360.0).Floor else -((-x / 360.0).Floor)
  }

  /** The number of full turns added on top of the target angle. */
  const RANDOM_SPINS := 8

  /** The rotation the spin animates to: the current rotation, plus eight
      turns and the target angle, minus the current rotation's remainder
      modulo 360. It differs from the target angle by the whole turns of the
      current rotation plus eight. */
  function NextRotation(current: real, target: real): (next: real)
    ensures next - target == 360.0 * (TruncatedQuotient360(current) + RANDOM_SPINS) as real
    ensures target > -2520.0 ==> next > current
    ensures current >= 0.0 ==> current + 2520.0 + target < next <= current + 2880.0 + target
  {
    var finalTarget := (RANDOM_SPINS * 360) as real + target;
    current + (finalTarget - JsRem360(current))
  }

  /** The final rotation differs from the target angle by whole turns. */
  lemma NextRotationWholeTurns(current: real, target: real)
    ensures IsWholeTurns(NextRotation(current, target) - target)
  {
    WholeTurns(TruncatedQuotient360(current) + RANDOM_SPINS);
  }

  // ---------------------------------------------------------------------
  // Statistics
  // ---------------------------------------------------------------------

  /** Wins recorded for `id`; a missing key counts as 0. */
  function WinCount(stats: WheelStats, id: string): int
  {
    if id in stats.optionStats then stats.optionStats[id] else 0
  }

  /** The statistics after a spin won by `winnerId` at time `now`. */
  function RecordWin(stats: WheelStats, winnerId: string, now: int): (s: WheelStats)
    ensures s.totalSpins == stats.totalSpins + 1
    ensures s.lastSpinTime == now
    ensures s.optionStats.Keys == stats.optionStats.Keys + {winnerId}
    ensures WinCount(s, winnerId) == WinCount(stats, winnerId) + 1
    ensures forall id :: id != winnerId ==> WinCount(s, id) == WinCount(stats, id)
  {
    WheelStats(
      stats.totalSpins + 1,
      now,
      stats.optionStats[winnerId := WinCount(stats, winnerId) + 1])
  }

  /** No option has won more often than the wheel was spun, and no count is
      negative. */
  predicate CountsBounded(stats: WheelStats)
  {
    && 0 <= stats.totalSpins
    && forall id :: id in stats.optionStats ==> 0 <= stats.optionStats[id] <= stats.totalSpins
  }

  /** Recording a win keeps every count between 0 and the spin total. */
  lemma RecordWinKeepsCountsBounded(stats: WheelStats, winnerId: string, now: int)
    requires CountsBounded(stats)
    ensures CountsBounded(RecordWin(stats, winnerId, now))
  {
    var s := RecordWin(stats, winnerId, now);
    forall id | id in s.optionStats
      ensures 0 <= s.optionStats[id] <= s.totalSpins
    {
      assert WinCount(s, id) == s.optionStats[id];
    }
  }

  // ---------------------------------------------------------------------
  // The screen's spin state
  // ---------------------------------------------------------------------

  /** What a spin settles on for the scaled draw `r`: the winner, and the
      final rotation that brings that winner's slice under the marker. */
  function SpinOutcome(options: seq<WheelOption>, rotation: real, r: real): (WheelOption, real)
    requires |options| > 0
  {
    var k := WinnerIndex(options, r);
    (options[k], NextRotation(rotation, TargetAngle(options, options[k].id)))
  }

  /** What a spin settles on for the draw `draw` (`Math.random()`), which the
      selection scales by the total weight. */
  function SpinPlan(options: seq<WheelOption>, rotation: real, draw: real): (WheelOption, real)
    requires |options| > 0
  {
    SpinOutcome(options, rotation, draw * Sum(options))
  }

  /** The computing part of `spinWheel`: select the winner, compute its target
      angle and the new rotation. With non-negative weights the wheel only
      turns forward. */
  method PlanSpin(options: seq<WheelOption>, rotation: real, draw: real) returns (winner: WheelOption, newRotation: real)
    requires |options| > 0
    ensures (winner, newRotation) == SpinPlan(options, rotation, draw)
    ensures winner in options
    ensures AllNonNegative(options) ==> newRotation > rotation
  {
    winner := SelectWinnerByPercentage(options, draw * Sum(options));
    var targetAngle := CalculateAngleForWinner(options, winner);
    if AllNonNegative(options) {
      TargetAngleRange(options, winner.id);
    }
    newRotation := NextRotation(rotation, targetAngle);
  }

  /** What the completion timer of a spin holds on to: the winner chosen at
      the start and the statistics as they were when the spin started. */
  datatype PendingSpin = PendingSpin(winner: WheelOption, statsAtStart: WheelStats)

  /** The mutable state of the home screen that the spin touches. */
  class Spinner {
    var options: seq<WheelOption>
    var stats: WheelStats
    var isSpinning: bool
    /** The wheel's rotation, in degrees. */
    var rotation: real
    var pending: Option<PendingSpin>

    /** A completion is outstanding exactly while the wheel spins. */
    ghost predicate Valid()
      reads this
    {
      isSpinning <==> pending.Some?
    }

    /** The screen as first rendered: no options yet, zero statistics, at rest
        at rotation 0. */
    constructor (now: int)
      ensures Valid()
      ensures options == [] && stats == WheelStats(0, now, map[])
      ensures !isSpinning && rotation == 0.0
    {
      options := [];
      stats := WheelStats(0, now, map[]);
      isSpinning := false;
      rotation := 0.0;
      pending := None;
    }

    /** `loadData`: replace the options and statistics with the stored ones. */
    method Load(loadedOptions: seq<WheelOption>, loadedStats: WheelStats)
      requires Valid()
      modifies this
      ensures Valid()
      ensures options == loadedOptions && stats == loadedStats
      ensures isSpinning == old(isSpinning) && rotation == old(rotation) && pending == old(pending)
    {
      options := loadedOptions;
      stats := loadedStats;
    }

    /** `spinWheel`, up to starting the timer: ignored while spinning or with
        no options; otherwise sets the flag, picks the winner and sets the
        rotation to the final target. `draw` is `Math.random()`. */
    method Spin(draw: real)
      requires Valid()
      requires 0.0 <= draw < 1.0
      modifies this
      ensures Valid()
      ensures options == old(options) && stats == old(stats)
      ensures old(isSpinning) || |old(options)| == 0 ==>
        isSpinning == old(isSpinning) && rotation == old(rotation) && pending == old(pending)
      ensures !old(isSpinning) && |old(options)| > 0 ==>
        && isSpinning
        && pending.Some? && pending.value.statsAtStart == stats
        && SpinPlan(options, old(rotation), draw) == (pending.value.winner, rotation)
      ensures AllNonNegative(options) ==> rotation >= old(rotation)
    {
      if isSpinning || |options| == 0 {
        return;
      }
      isSpinning := true;
      var winner, newRotation := PlanSpin(options, rotation, draw);
      rotation := newRotation;
      pending := Some(PendingSpin(winner, stats));
    }

    /** The timer callback: clear the flag and record the win on top of the
        statistics captured when the spin started. */
    method Finish(now: int)
      requires Valid() && isSpinning
      modifies this
      ensures Valid() && !isSpinning
      ensures stats == RecordWin(old(pending).value.statsAtStart, old(pending).value.winner.id, now)
      ensures options == old(options) && rotation == old(rotation)
    {
      var p := pending.value;
      isSpinning := false;
      pending := None;
      stats := RecordWin(p.statsAtStart, p.winner.id, now);
    }
  }
}
