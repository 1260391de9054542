/**
 * The slice layout of src/components/Wheel.tsx: each option gets a slice of
 * the circle proportional to its weight, the slices follow each other in
 * list order from `rotation`, and the label sits in the middle of its slice.
 *
 * Angles are in turns (1.0 is a full circle); the source works in radians.
 * The trigonometry and the SVG path text are not modelled.
 */
module WheelLayout {

  import opened Types

  /** What the wheel draws for one option. `largeArcFlag` is the SVG arc
      flag; `caption` is the text shown. */
  datatype Slice = Slice(
    key: string,
    startAngle: real,
    endAngle: real,
    textAngle: real,
    largeArcFlag: int,
    caption: string,
    fill: string)

  /** The SVG large-arc flag: 1 exactly when the slice spans more than half
      a turn. */
  function LargeArcFlag(sliceAngle: real): (flag: int)
    ensures flag == 1 <==> sliceAngle > 0.5
    ensures flag == 0 <==> sliceAngle <= 0.5
  {
    if sliceAngle > 0.5 then 1 else 0
  }

  /** Longest label shown in full. */
  const MAX_LABEL := 8

  /** The label text: longer than 8 characters becomes the first 8 followed
      by "...". */
  function TruncateLabel(text: string): (caption: string)
    ensures |text| <= MAX_LABEL ==> caption == text
    ensures |text| > MAX_LABEL ==> |caption| == MAX_LABEL + 3
    ensures |text| > MAX_LABEL ==>
      caption[..MAX_LABEL] == text[..MAX_LABEL] && caption[MAX_LABEL..] == "..."
  {
    if |text| > MAX_LABEL then text[..MAX_LABEL] + "..." else text
  }

  /** Specification of the `i`-th slice: it starts after the slices before it,
      spans its share `weight / total` of a turn, and carries its label at
      its middle. */
  function SliceAt(options: seq<WheelOption>, rotation: real, i: nat): Slice
    requires i < |options|
    requires Sum(options) != 0.0
  {
    var total := Sum(options);
    var start := rotation + PrefixSum(options, i) / total;
    var sliceAngle := options[i].percentage / total;
    Slice(
      options[i].id,
      start,
      start + sliceAngle,
      start + sliceAngle / 2.0,
      LargeArcFlag(sliceAngle),
      TruncateLabel(options[i].text),
      options[i].color)
  }

  /** `Wheel`: lay out one slice per option, threading the current angle
      through the options in order. No options draw nothing. The weights
      must not sum to 0 (the source then divides by zero). */
  method CreateSlices(options: seq<WheelOption>, rotation: real) returns (slices: seq<Slice>)
    requires |options| == 0 || Sum(options) != 0.0
    ensures |slices| == |options|
    ensures forall i :: 0 <= i < |options| ==> slices[i] == SliceAt(options, rotation, i)
  {
    if |options| == 0 {
      return [];
    }
    var totalPercentage := Sum(options);
    var currentAngle := rotation;
    slices := [];
    var i := 0;
    while i < |options|
      invariant 0 <= i <= |options|
      invariant |slices| == i
      invariant currentAngle == rotation + PrefixSum(options, i) / totalPercentage
      invariant forall j :: 0 <= j < i ==> slices[j] == SliceAt(options, rotation, j)
    {
      var option := options[i];
      var sliceAngle := option.percentage / totalPercentage;
      var startAngle := currentAngle;
      var endAngle := currentAngle + sliceAngle;
      var textAngle := startAngle + sliceAngle / 2.0;
      var caption := TruncateLabel(option.text);
      slices := slices + [Slice(option.id, startAngle, endAngle, textAngle, LargeArcFlag(sliceAngle), caption, option.color)];
      PrefixSumStep(options, i);
      ShareAdd(PrefixSum(options, i), option.percentage, totalPercentage);
      currentAngle := currentAngle + sliceAngle;
      i := i + 1;
    }
  }

  /** Each slice spans its option's share of the total weight. */
  lemma SliceSpansShare(options: seq<WheelOption>, rotation: real, i: nat)
    requires i < |options| && Sum(options) != 0.0
    ensures SliceAt(options, rotation, i).endAngle - SliceAt(options, rotation, i).startAngle
      == options[i].percentage / Sum(options)
  {
  }

  /** The first slice starts at `rotation`. */
  lemma FirstSliceStartsAtRotation(options: seq<WheelOption>, rotation: real)
    requires |options| > 0 && Sum(options) != 0.0
    ensures SliceAt(options, rotation, 0).startAngle == rotation
  {
    SliceBounds(options, rotation, 0);
    assert options[..0] == [];
    assert PrefixSum(options, 0) == 0.0;
    ZeroShare(Sum(options));
  }

  /** Slices are contiguous: each starts where the one before it ends. */
  lemma SlicesContiguous(options: seq<WheelOption>, rotation: real, i: nat)
    requires i + 1 < |options| && Sum(options) != 0.0
    ensures SliceAt(options, rotation, i + 1).startAngle == SliceAt(options, rotation, i).endAngle
  {
    SliceBounds(options, rotation, i);
    SliceBounds(options, rotation, i + 1);
    ShareStep(options, i);
  }

  /** Where slice `i` starts and ends, in terms of the running total. */
  lemma SliceBounds(options: seq<WheelOption>, rotation: real, i: nat)
    requires i < |options| && Sum(options) != 0.0
    ensures SliceAt(options, rotation, i).startAngle == rotation + PrefixSum(options, i) / Sum(options)
    ensures SliceAt(options, rotation, i).endAngle
      == SliceAt(options, rotation, i).startAngle + options[i].percentage / Sum(options)
  {
  }

  /** The share of the first `i + 1` options is the share of the first `i`
      plus the share of option `i`. */
  lemma ShareStep(options: seq<WheelOption>, i: nat)
    requires i < |options| && Sum(options) != 0.0
    ensures PrefixSum(options, i + 1) / Sum(options)
      == PrefixSum(options, i) / Sum(options) + options[i].percentage / Sum(options)
  {
    PrefixSumStep(options, i);
    ShareOfSum(PrefixSum(options, i + 1), PrefixSum(options, i), options[i].percentage, Sum(options));
  }

  /** A weight made of two parts has the two parts' shares. */
  lemma ShareOfSum(a: real, p: real, w: real, total: real)
    requires a == p + w && total != 0.0
    ensures a / total == p / total + w / total
  {
    ShareAdd(p, w, total);
  }

  /** The last slice ends one full turn after `rotation`. */
  lemma LastSliceEndsFullTurn(options: seq<WheelOption>, rotation: real)
    requires |options| > 0 && Sum(options) != 0.0
    ensures SliceAt(options, rotation, |options| - 1).endAngle == rotation + 1.0
  {
    var n, total := |options|, Sum(options);
    PrefixSumStep(options, n - 1);
    PrefixSumAll(options);
    var p, w := PrefixSum(options, n - 1), options[n - 1].percentage;
    ShareAdd(p, w, total);
    assert p + w == total;
    assert SliceAt(options, rotation, n - 1).endAngle == rotation + (p + w) / total;
    SelfShare(total);
  }

  /** The label is drawn at the middle of its slice. */
  lemma LabelAtMidpoint(options: seq<WheelOption>, rotation: real, i: nat)
    requires i < |options| && Sum(options) != 0.0
    ensures var s := SliceAt(options, rotation, i);
      s.textAngle == (s.startAngle + s.endAngle) / 2.0
  {
  }

  /** With non-negative weights every slice lies within the turn that starts
      at `rotation`. */
  lemma SliceWithinTurn(options: seq<WheelOption>, rotation: real, i: nat)
    requires i < |options| && Sum(options) != 0.0
    requires AllNonNegative(options)
    ensures var s := SliceAt(options, rotation, i);
      rotation <= s.startAngle <= s.endAngle <= rotation + 1.0
  {
    var total, p, w := Sum(options), PrefixSum(options, i), options[i].percentage;
    assert 0.0 <= p && 0.0 <= w && p + w <= total by {
      PrefixSumStep(options, i);
      PrefixSumAll(options);
      PrefixSumMonotone(options, 0, i);
      PrefixSumMonotone(options, i + 1, |options|);
    }
    SliceBounds(options, rotation, i);
    TurnBounds(rotation, p, w, total);
  }

  /** A slice whose running total and weight fit in the total lies within
      the turn starting at `rotation`. */
  lemma TurnBounds(rotation: real, p: real, w: real, total: real)
    requires 0.0 <= p && 0.0 <= w && p + w <= total && total != 0.0
    ensures rotation <= rotation + p / total
    ensures rotation + p / total <= rotation + p / total + w / total <= rotation + 1.0
  {
    ShareAdd(p, w, total);
    ShareBounds(p, p + w, total);
    ShareBounds(0.0, w, total);
  }

  lemma ShareBounds(a: real, b: real, total: real)
    requires 0.0 <= a <= b <= total && total != 0.0
    ensures 0.0 <= a / total <= b / total <= 1.0
  {
    assert total > 0.0;
  }

  lemma ZeroShare(total: real)
    requires total != 0.0
    ensures 0.0 / total == 0.0
  {
  }

  lemma SelfShare(total: real)
    requires total != 0.0
    ensures total / total == 1.0
  {
  }
}
