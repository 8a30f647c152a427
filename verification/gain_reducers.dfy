/** The two reducers of the default evaluation chain (agc::evaluateAmplitude and
agc::evaluateMicVolume). A history is a list of amplitudes, newest first;
`double` is modelled as `real`, without rounding.
 */
module GainReducers {

  /** `favorNewFactor` of `evaluateMicVolume`. */
  const FavorNewFactor: real := 0.2

  /** `inputDecreaseFactor` of `evaluateMicVolume`. */
  const InputDecreaseFactor: real := 0.5

  predicate InUnitRange(amplitudes: seq<real>) {
    forall i :: 0 <= i < |amplitudes| ==> 0.0 <= amplitudes[i] <= 1.0
  }

  /** `std::accumulate` from 0, front to back. */
  function Sum(amplitudes: seq<real>): real
    decreases |amplitudes|
  {
    if |amplitudes| == 0 then 0.0
    else Sum(amplitudes[..|amplitudes| - 1]) + amplitudes[|amplitudes| - 1]
  }

  /** `evaluateAmplitude`: the arithmetic mean of the history. The empty list,
      for which the source divides 0 by 0, is given the value 0; an evaluator
      never hands its reducer an empty history. */
  function EvaluateAmplitude(amplitudes: seq<real>): real {
    if |amplitudes| == 0 then 0.0 else Sum(amplitudes) / (|amplitudes| as real)
  }

  /** One step of the loop of `evaluateMicVolume`. */
  function VolumeStep(volume: real, amplitude: real): real {
    (1.0 - FavorNewFactor) * volume + FavorNewFactor * amplitude * InputDecreaseFactor
  }

  /** The loop of `evaluateMicVolume` from accumulator `volume`: it walks the list
      from its head, which holds the NEWEST amplitude, to its back. */
  function FoldVolume(volume: real, amplitudes: seq<real>): real
    decreases |amplitudes|
  {
    if |amplitudes| == 0 then volume
    else FoldVolume(VolumeStep(volume, amplitudes[0]), amplitudes[1..])
  }

  /** `evaluateMicVolume`: the complement of the folded amplitude. */
  function EvaluateMicVolume(amplitudes: seq<real>): real {
    1.0 - FoldVolume(0.0, amplitudes)
  }

  function Pow(base: real, n: nat): real {
    if n == 0 then 1.0 else base * Pow(base, n - 1)
  }

  /** The weight the fold gives to position j (0 = newest) of a list of n
      amplitudes: 0.1 * 0.8^(n - 1 - j). The oldest entry gets 0.1, the newest
      0.1 * 0.8^(n - 1). */
  function Weight(n: nat, j: nat): real
    requires j < n
  {
    FavorNewFactor * InputDecreaseFactor * Pow(1.0 - FavorNewFactor, n - 1 - j)
  }

  /** Reference definition of the fold from 0: the sum over positions j of
      Weight(|amplitudes|, j) * amplitudes[j]. */
  function WeightedSum(amplitudes: seq<real>): real
    decreases |amplitudes|
  {
    if |amplitudes| == 0 then 0.0
    else Weight(|amplitudes|, 0) * amplitudes[0] + WeightedSum(amplitudes[1..])
  }

  lemma {:induction false} SumBounds(amplitudes: seq<real>)
    requires InUnitRange(amplitudes)
    ensures 0.0 <= Sum(amplitudes) <= |amplitudes| as real
    decreases |amplitudes|
  {
    if |amplitudes| > 0 {
      SumBounds(amplitudes[..|amplitudes| - 1]);
    }
  }

  /** The mean of amplitudes in [0, 1] lies in [0, 1]. */
  lemma MeanInUnitRange(amplitudes: seq<real>)
    requires |amplitudes| >= 1 && InUnitRange(amplitudes)
    ensures 0.0 <= EvaluateAmplitude(amplitudes) <= 1.0
  {
    SumBounds(amplitudes);
    var n := |amplitudes| as real;
    var s := Sum(amplitudes);
    assert s / n <= 1.0 by {
      assert s / n * n == s;
    }
  }

  lemma {:induction false} SumOfConstant(n: nat, c: real)
    ensures Sum(seq(n, _ => c)) == (n as real) * c
  {
    if n > 0 {
      SumOfConstant(n - 1, c);
      assert seq(n, _ => c)[..n - 1] == seq(n - 1, _ => c);
    }
  }

  /** The mean of n >= 1 copies of c is c. */
  lemma MeanOfConstant(n: nat, c: real)
    requires n >= 1
    ensures EvaluateAmplitude(seq(n, _ => c)) == c
  {
    SumOfConstant(n, c);
  }

  /** The fold equals the scaled start value plus the weighted sum: the entry at
      position j of n (0 = newest) enters with weight 0.1 * 0.8^(n - 1 - j). */
  lemma {:induction false} FoldIsWeightedSum(volume: real, amplitudes: seq<real>)
    ensures FoldVolume(volume, amplitudes)
         == Pow(1.0 - FavorNewFactor, |amplitudes|) * volume + WeightedSum(amplitudes)
    decreases |amplitudes|
  {
    if |amplitudes| > 0 {
      var n := |amplitudes|;
      var next := VolumeStep(volume, amplitudes[0]);
      FoldIsWeightedSum(next, amplitudes[1..]);
      var p := Pow(0.8, n - 1);
      assert Pow(0.8, n) == 0.8 * p;
      assert Weight(n, 0) == 0.1 * p;
      assert p * next == 0.8 * p * volume + 0.1 * p * amplitudes[0];
    }
  }

  /** `evaluateMicVolume` is one minus the weighted sum of the history. */
  lemma MicVolumeIsWeighted(amplitudes: seq<real>)
    ensures EvaluateMicVolume(amplitudes) == 1.0 - WeightedSum(amplitudes)
  {
    FoldIsWeightedSum(0.0, amplitudes);
  }

  /** The fold keeps its accumulator in [0, 0.5] when every amplitude is in [0, 1]. */
  lemma {:induction false} FoldVolumeBounds(volume: real, amplitudes: seq<real>)
    requires 0.0 <= volume <= 0.5 && InUnitRange(amplitudes)
    ensures 0.0 <= FoldVolume(volume, amplitudes) <= 0.5
    decreases |amplitudes|
  {
    if |amplitudes| > 0 {
      FoldVolumeBounds(VolumeStep(volume, amplitudes[0]), amplitudes[1..]);
    }
  }

  /** For amplitudes in [0, 1] the volume lies in [0.5, 1]. */
  lemma MicVolumeInRange(amplitudes: seq<real>)
    requires InUnitRange(amplitudes)
    ensures 0.5 <= EvaluateMicVolume(amplitudes) <= 1.0
  {
    FoldVolumeBounds(0.0, amplitudes);
  }

  lemma {:induction false} FoldOfConstant(volume: real, n: nat, c: real)
    ensures FoldVolume(volume, seq(n, _ => c))
         == Pow(0.8, n) * volume + 0.5 * c * (1.0 - Pow(0.8, n))
    decreases n
  {
    if n > 0 {
      assert seq(n, _ => c)[1..] == seq(n - 1, _ => c);
      FoldOfConstant(VolumeStep(volume, c), n - 1, c);
      var p := Pow(0.8, n - 1);
      assert Pow(0.8, n) == 0.8 * p;
      assert p * VolumeStep(volume, c) == 0.8 * p * volume + 0.1 * p * c;
      assert 0.5 * c * (1.0 - p) == 0.5 * c - 0.5 * c * p;
      assert 0.5 * c * (1.0 - 0.8 * p) == 0.5 * c - 0.4 * c * p;
    }
  }

  /** For n copies of c the volume is 1 - 0.5 * c * (1 - 0.8^n). */
  lemma MicVolumeOfConstant(n: nat, c: real)
    ensures EvaluateMicVolume(seq(n, _ => c)) == 1.0 - 0.5 * c * (1.0 - Pow(0.8, n))
  {
    FoldOfConstant(0.0, n, c);
  }

  /** Pointwise-ordered lists of the same length have ordered sums. */
  lemma {:induction false} SumMonotone(smaller: seq<real>, larger: seq<real>)
    requires |smaller| == |larger|
    requires forall i :: 0 <= i < |smaller| ==> smaller[i] <= larger[i]
    ensures Sum(smaller) <= Sum(larger)
    decreases |smaller|
  {
    if |smaller| > 0 {
      var n := |smaller|;
      SumMonotone(smaller[..n - 1], larger[..n - 1]);
    }
  }

  /** `evaluateAmplitude` is monotone: raising entries never lowers the mean. */
  lemma MeanMonotone(smaller: seq<real>, larger: seq<real>)
    requires |smaller| == |larger| >= 1
    requires forall i :: 0 <= i < |smaller| ==> smaller[i] <= larger[i]
    ensures EvaluateAmplitude(smaller) <= EvaluateAmplitude(larger)
  {
    SumMonotone(smaller, larger);
    var n := |smaller| as real;
    assert Sum(larger) / n - Sum(smaller) / n == (Sum(larger) - Sum(smaller)) / n;
  }

  lemma {:induction false} PowNonNegative(base: real, n: nat)
    requires 0.0 <= base
    ensures 0.0 <= Pow(base, n)
  {
    if n > 0 {
      PowNonNegative(base, n - 1);
    }
  }

  /** Every weight of the fold is nonnegative, so raising entries never lowers
      the weighted sum. */
  lemma {:induction false} WeightedSumMonotone(smaller: seq<real>, larger: seq<real>)
    requires |smaller| == |larger|
    requires forall i :: 0 <= i < |smaller| ==> smaller[i] <= larger[i]
    ensures WeightedSum(smaller) <= WeightedSum(larger)
    decreases |smaller|
  {
    if |smaller| > 0 {
      var n := |smaller|;
      WeightedSumMonotone(smaller[1..], larger[1..]);
      PowNonNegative(1.0 - FavorNewFactor, n - 1);
      var w := Weight(n, 0);
      assert 0.0 <= w;
      assert w * smaller[0] <= w * larger[0] by {
        assert w * larger[0] - w * smaller[0] == w * (larger[0] - smaller[0]);
      }
    }
  }

  /** `evaluateMicVolume` is antitone: louder histories give lower volumes. */
  lemma MicVolumeAntitone(quieter: seq<real>, louder: seq<real>)
    requires |quieter| == |louder|
    requires forall i :: 0 <= i < |quieter| ==> quieter[i] <= louder[i]
    ensures EvaluateMicVolume(louder) <= EvaluateMicVolume(quieter)
  {
    WeightedSumMonotone(quieter, louder);
    MicVolumeIsWeighted(quieter);
    MicVolumeIsWeighted(louder);
  }

  /** The fold order as written: a loud value at the back (oldest) lowers the
      volume more than the same value at the front (newest). */
  lemma OldestWeighsMost()
    ensures EvaluateMicVolume([1.0, 0.0]) == 0.92
    ensures EvaluateMicVolume([0.0, 1.0]) == 0.9
  {
    assert [1.0, 0.0][1..] == [0.0];
    assert [0.0, 1.0][1..] == [1.0];
    assert [0.0][1..] == [];
    assert [1.0][1..] == [];
  }
}
