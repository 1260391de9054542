/**
 * The property that ties src/screens/HomeScreen.tsx to
 * src/components/Wheel.tsx: the angle the spin aims for is computed from the
 * same slice layout the wheel draws, so the wheel comes to rest with the
 * pre-selected winner's label under the marker at 270 degrees.
 *
 * The wheel is drawn with `rotation` 0, and the animated view turns the
 * drawing by the spin's rotation, so a label drawn at angle `a` (degrees)
 * ends up at `a + rotation`.
 */
module Alignment {

  import opened Wrappers
  import opened Types
  import opened Home
  import opened WheelLayout

  /** Where the marker sits on the unrotated drawing, in degrees. */
  const MARKER_ANGLE := 270.0

  /** The mapper's `middleOfSlice` (degrees) is the wheel's label angle
      (turns) times 360, for the first slice carrying the id. */
  lemma MapperMidpointIsLabelAngle(options: seq<WheelOption>, id: string, i: nat)
    requires Sum(options) != 0.0
    requires FirstIndexOfId(options, id) == Some(i)
    ensures TargetAngle(options, id) == MARKER_ANGLE - SliceAt(options, 0.0, i).textAngle * 360.0
  {
    var total, p, w := Sum(options), PrefixSum(options, i), options[i].percentage;
    assert SliceAt(options, 0.0, i).textAngle == 0.0 + p / total + (w / total) / 2.0;
    assert (p / total + (w / total) / 2.0) * 360.0 == p / total * 360.0 + (w / total * 360.0) / 2.0;
  }

  /** The whole turns between the target angle and the final rotation of a
      spin that starts at `rotation`. */
  function SpinTurns(rotation: real): int
  {
    TruncatedQuotient360(rotation) + RANDOM_SPINS
  }

  /** A final rotation that is the target angle plus `n` turns puts the
      label of the targeted slice at the marker, `n` turns on. */
  lemma LabelUnderMarker(options: seq<WheelOption>, id: string, i: nat, next: real, n: int)
    requires Sum(options) != 0.0
    requires FirstIndexOfId(options, id) == Some(i)
    requires next - TargetAngle(options, id) == 360.0 * n as real
    ensures SliceAt(options, 0.0, i).textAngle * 360.0 + next - MARKER_ANGLE == 360.0 * n as real
  {
    MapperMidpointIsLabelAngle(options, id, i);
  }

  /** Whichever option the spin picks, the final rotation aims at the first
      slice carrying its id. */
  lemma AimedAtFirstWithId(options: seq<WheelOption>, rotation: real, k: nat)
    requires k < |options| && Sum(options) != 0.0
    ensures FirstIndexOfId(options, options[k].id).Some?
    ensures var i := FirstIndexOfId(options, options[k].id).value;
      && options[i].id == options[k].id
      && SliceAt(options, 0.0, i).textAngle * 360.0
           + NextRotation(rotation, TargetAngle(options, options[k].id)) - MARKER_ANGLE
         == 360.0 * SpinTurns(rotation) as real
  {
    var id := options[k].id;
    var i := FirstIndexOfId(options, id).value;
    LabelUnderMarker(options, id, i, NextRotation(rotation, TargetAngle(options, id)), SpinTurns(rotation));
  }

  /** After a spin the label of the first slice that carries the winner's id
      rests under the marker: its angle plus the final rotation is 270
      degrees plus `SpinTurns(rotation)` whole turns. */
  lemma SpinStopsOnWinnersId(options: seq<WheelOption>, rotation: real, r: real)
    requires |options| > 0 && Sum(options) != 0.0
    ensures var plan := SpinOutcome(options, rotation, r);
      && FirstIndexOfId(options, plan.0.id).Some?
      && var i := FirstIndexOfId(options, plan.0.id).value;
      && options[i].id == plan.0.id
      && SliceAt(options, 0.0, i).textAngle * 360.0 + plan.1 - MARKER_ANGLE == 360.0 * SpinTurns(rotation) as real
  {
    AimedAtFirstWithId(options, rotation, WinnerIndex(options, r));
  }

  /** With unique ids the slice under the marker is the selected one. */
  lemma SpinStopsOnWinner(options: seq<WheelOption>, rotation: real, r: real)
    requires |options| > 0 && Sum(options) != 0.0
    requires UniqueIds(options)
    ensures var k := WinnerIndex(options, r);
      SliceAt(options, 0.0, k).textAngle * 360.0 + SpinOutcome(options, rotation, r).1 - MARKER_ANGLE
        == 360.0 * SpinTurns(rotation) as real
  {
    var k := WinnerIndex(options, r);
    FirstIndexOfOwnId(options, k);
    AimedAtFirstWithId(options, rotation, k);
  }
}
