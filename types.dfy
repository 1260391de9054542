/**
 * The records of src/types/index.ts, and the weight total that every
 * screen computes with `options.reduce((sum, o) => sum + o.percentage, 0)`.
 */
module Types {

  import opened Wrappers

  /** One option on the wheel. `percentage` is a relative weight: the
      options need not add up to 100. */
  datatype WheelOption = WheelOption(id: string, text: string, percentage: real, color: string)

  /** Spin statistics: the number of spins, the time of the last one and a
      per-option-id win counter. */
  datatype WheelStats = WheelStats(totalSpins: int, lastSpinTime: int, optionStats: map<string, int>)

  /** Left fold of the weights, in list order, as `reduce` computes it. */
  function Sum(s: seq<WheelOption>): (total: real)
    ensures s == [] ==> total == 0.0
  {
    if s == [] then 0.0 else Sum(s[..|s| - 1]) + s[|s| - 1].percentage
  }

  /** Weight of the first `k` options. */
  function PrefixSum(s: seq<WheelOption>, k: nat): real
    requires k <= |s|
  {
    Sum(s[..k])
  }

  /** Adding one more option to the prefix adds its weight. */
  lemma PrefixSumStep(s: seq<WheelOption>, k: nat)
    requires k < |s|
    ensures PrefixSum(s, k + 1) == PrefixSum(s, k) + s[k].percentage
  {
    assert s[..k + 1][..k] == s[..k];
  }

  /** The whole list is its own longest prefix. */
  lemma PrefixSumAll(s: seq<WheelOption>)
    ensures PrefixSum(s, |s|) == Sum(s)
  {
    assert s[..|s|] == s;
  }

  /** Weight of the options up to and including position `j`. */
  function CumulativeWeight(s: seq<WheelOption>, j: nat): real
    requires j < |s|
  {
    PrefixSum(s, j + 1)
  }

  /** Shares of a total add up like the weights they come from. */
  lemma ShareAdd(p: real, w: real, total: real)
    requires total != 0.0
    ensures (p + w) / total == p / total + w / total
  {
  }

  predicate AllNonNegative(s: seq<WheelOption>)
  {
    forall i :: 0 <= i < |s| ==> s[i].percentage >= 0.0
  }

  predicate AllPositive(s: seq<WheelOption>)
  {
    forall i :: 0 <= i < |s| ==> s[i].percentage > 0.0
  }

  /** With non-negative weights the prefix sums never decrease. */
  lemma {:induction false} PrefixSumMonotone(s: seq<WheelOption>, j: nat, k: nat)
    requires AllNonNegative(s)
    requires j <= k <= |s|
    ensures PrefixSum(s, j) <= PrefixSum(s, k)
    decreases k - j
  {
    if j < k {
      PrefixSumMonotone(s, j, k - 1);
      PrefixSumStep(s, k - 1);
    }
  }

  /** With positive weights the prefix sums strictly increase. */
  lemma {:induction false} PrefixSumStrict(s: seq<WheelOption>, j: nat, k: nat)
    requires AllPositive(s)
    requires j < k <= |s|
    ensures PrefixSum(s, j) < PrefixSum(s, k)
    decreases k - j
  {
    PrefixSumStep(s, k - 1);
    if j < k - 1 {
      PrefixSumStrict(s, j, k - 1);
    }
  }

  /** Index of the first option whose id is `id`, if any (`Array.find` order). */
  function FirstIndexOfId(s: seq<WheelOption>, id: string): (r: Option<nat>)
    ensures r.Some? ==> r.value < |s| && s[r.value].id == id
    ensures r.Some? ==> forall j :: 0 <= j < r.value ==> s[j].id != id
    ensures r.None? ==> forall j :: 0 <= j < |s| ==> s[j].id != id
  {
    if s == [] then None
    else if s[0].id == id then Some(0)
    else match FirstIndexOfId(s[1..], id)
      case None => None
      case Some(i) => Some(i + 1)
  }

  /** No two options share an id (the app does not enforce this). */
  predicate UniqueIds(s: seq<WheelOption>)
  {
    forall i, j :: 0 <= i < j < |s| ==> s[i].id != s[j].id
  }

  /** With unique ids, looking an option up by its id finds that option. */
  lemma FirstIndexOfOwnId(s: seq<WheelOption>, k: nat)
    requires UniqueIds(s)
    requires k < |s|
    ensures FirstIndexOfId(s, s[k].id) == Some(k)
  {
  }
}
