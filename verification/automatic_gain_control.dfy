/** The evaluation chain of agc::AutomaticGainControl: an ordered list of
evaluators over amplitudes, each fed the previous one's result, turning the
peak amplitude of a PCM buffer into a target microphone volume.
 */
module AutomaticGainControl {
  import opened WeightedEvaluator
  import opened GainReducers
  import opened Pcm

  /** A stage of the chain: `WeightedEvaluator<double, double>`. */
  type Stage = Evaluator<real, real>

  /** The controller: its stages, first to last. */
  datatype Agc = Agc(stages: seq<Stage>)

  /** The stages after one chain evaluation, and the value it returned. */
  datatype Evaluation = Evaluation(stages: seq<Stage>, target: real)

  /** The stages after a run of chain evaluations, and the values they returned. */
  datatype Session = Session(stages: seq<Stage>, targets: seq<real>)

  /** Capacity of the amplitude-smoothing stage. */
  const AmplitudeCapacity: nat := 5

  /** Capacity of the volume-estimation stage. */
  const VolumeCapacity: nat := 20

  /** Every stage keeps the evaluator invariant, so each can take a value. */
  predicate Ready(stages: seq<Stage>) {
    forall i :: 0 <= i < |stages| ==> Valid(stages[i])
  }

  /** The range `MicrophoneController::setVolume` asserts for its argument. */
  predicate SetVolumeAccepts(volume: real) {
    0.0 <= volume <= 1.0
  }

  /** The default constructor: a mean stage of capacity 5, then a volume stage of
      capacity 20, both with a history of zeros. */
  function Default(): (g: Agc)
    ensures |g.stages| == 2
    ensures g.stages[0].capacity == 5 && g.stages[0].reducer == EvaluateAmplitude
    ensures g.stages[1].capacity == 20 && g.stages[1].reducer == EvaluateMicVolume
    ensures forall i :: 0 <= i < |g.stages| ==> g.stages[i].history == seq(g.stages[i].capacity, _ => 0.0)
    ensures Ready(g.stages)
  {
    Agc([New(AmplitudeCapacity, 0.0, EvaluateAmplitude), New(VolumeCapacity, 0.0, EvaluateMicVolume)])
  }

  /** `addWeightedEvaluator`: a copy of `e` becomes the new last stage. */
  function AddWeightedEvaluator(g: Agc, e: Stage): (g': Agc)
    ensures |g'.stages| == |g.stages| + 1
    ensures forall i :: 0 <= i < |g.stages| ==> g'.stages[i] == g.stages[i]
    ensures g'.stages[|g.stages|] == e
    ensures Ready(g.stages) && Valid(e) ==> Ready(g'.stages)
  {
    Agc(g.stages + [e])
  }

  /** The value stage i receives when the chain is fed `x`: `x` itself for stage
      0, the result of stage i - 1 otherwise; for i == |stages| it is the value the
      chain returns. */
  function StageInput(stages: seq<Stage>, x: real, i: nat): real
    requires Ready(stages) && i <= |stages|
    decreases i
  {
    if i == 0 then x else AddValue(stages[i - 1], StageInput(stages, x, i - 1)).result
  }

  /** One pass of the loop of `evaluateMicrophoneTargetVolume` over the stages. */
  function EvaluateChain(stages: seq<Stage>, x: real): (r: Evaluation)
    requires Ready(stages)
    ensures |r.stages| == |stages| && Ready(r.stages)
    ensures forall i :: 0 <= i < |stages| ==>
      r.stages[i].capacity == stages[i].capacity && r.stages[i].reducer == stages[i].reducer
    ensures |stages| == 0 ==> r.target == x
    decreases |stages|
  {
    if |stages| == 0 then Evaluation([], x)
    else
      var a := AddValue(stages[0], x);
      var rest := EvaluateChain(stages[1..], a.result);
      Evaluation([a.next] + rest.stages, rest.target)
  }

  lemma {:induction false} StageInputShift(stages: seq<Stage>, x: real, i: nat)
    requires Ready(stages) && |stages| >= 1 && i < |stages|
    ensures StageInput(stages, x, i + 1) == StageInput(stages[1..], AddValue(stages[0], x).result, i)
    decreases i
  {
    if i > 0 {
      StageInputShift(stages, x, i - 1);
    }
  }

  lemma {:induction false} ChainUpdatesStage(stages: seq<Stage>, x: real, i: nat)
    requires Ready(stages) && i < |stages|
    ensures EvaluateChain(stages, x).stages[i] == AddValue(stages[i], StageInput(stages, x, i)).next
    decreases |stages|
  {
    var a := AddValue(stages[0], x);
    var tail := stages[1..];
    var r := EvaluateChain(stages, x);
    assert r.stages == [a.next] + EvaluateChain(tail, a.result).stages;
    if i > 0 {
      ChainUpdatesStage(tail, a.result, i - 1);
      StageInputShift(stages, x, i - 1);
      assert stages[i] == tail[i - 1];
    }
  }

  lemma {:induction false} ChainReturnsLastResult(stages: seq<Stage>, x: real)
    requires Ready(stages)
    ensures EvaluateChain(stages, x).target == StageInput(stages, x, |stages|)
    decreases |stages|
  {
    if |stages| > 0 {
      var a := AddValue(stages[0], x);
      ChainReturnsLastResult(stages[1..], a.result);
      StageInputShift(stages, x, |stages| - 1);
    }
  }

  /** Each stage is updated exactly once, by `addValue` of the value it receives,
      and the chain returns the last stage's result. */
  lemma ChainFeedsForward(stages: seq<Stage>, x: real)
    requires Ready(stages)
    ensures forall i :: 0 <= i < |stages| ==>
      EvaluateChain(stages, x).stages[i] == AddValue(stages[i], StageInput(stages, x, i)).next
    ensures EvaluateChain(stages, x).target == StageInput(stages, x, |stages|)
  {
    forall i | 0 <= i < |stages|
      ensures EvaluateChain(stages, x).stages[i] == AddValue(stages[i], StageInput(stages, x, i)).next
    {
      ChainUpdatesStage(stages, x, i);
    }
    ChainReturnsLastResult(stages, x);
  }

  /** The stage-by-stage description determines the chain evaluation. */
  lemma StageWiseIsChain(stages: seq<Stage>, x: real, updated: seq<Stage>, target: real)
    requires Ready(stages) && |updated| == |stages|
    requires forall i :: 0 <= i < |stages| ==> updated[i] == AddValue(stages[i], StageInput(stages, x, i)).next
    requires target == StageInput(stages, x, |stages|)
    ensures Evaluation(updated, target) == EvaluateChain(stages, x)
  {
    ChainFeedsForward(stages, x);
    assert updated == EvaluateChain(stages, x).stages;
  }

  /** The cycle `evaluateMicrophoneTargetVolume` performs on one buffer. */
  function Cycle(g: Agc, pcm: seq<Byte>): Evaluation
    requires Ready(g.stages)
  {
    EvaluateChain(g.stages, PeakAmplitude(pcm))
  }

  /** The state of the loop of `evaluateMicrophoneTargetVolume` after i stages:
      the first i stages have taken their input, the others are untouched, and
      `evaluation` is the input of stage i. */
  ghost predicate ChainedUpTo(original: seq<Stage>, x: real, stages: seq<Stage>, i: nat, evaluation: real) {
    && Ready(original) && i <= |original| == |stages|
    && evaluation == StageInput(original, x, i)
    && (forall j :: 0 <= j < i ==> stages[j] == AddValue(original[j], StageInput(original, x, j)).next)
    && (forall j :: i <= j < |stages| ==> stages[j] == original[j])
  }

  lemma ChainedStep(original: seq<Stage>, x: real, stages: seq<Stage>, i: nat, evaluation: real)
    requires ChainedUpTo(original, x, stages, i, evaluation) && i < |stages|
    ensures stages[i].capacity >= 1
    ensures ChainedUpTo(original, x, stages[i := AddValue(stages[i], evaluation).next], i + 1,
                        AddValue(stages[i], evaluation).result)
  {
  }

  /** `evaluateMicrophoneTargetVolume`, statement for statement: the peak
      amplitude goes through every stage once, in order; stage i receives the
      result of stage i - 1 and the last result is returned. The new stages and
      the target are exactly `Cycle(g, pcm)`, which `ChainFeedsForward` spells
      out stage by stage. */
  method EvaluateMicrophoneTargetVolume(g: Agc, pcm: seq<Byte>) returns (g': Agc, target: real)
    requires Ready(g.stages)
    ensures |g'.stages| == |g.stages|
    ensures target == StageInput(g.stages, PeakAmplitude(pcm), |g.stages|)
    ensures Evaluation(g'.stages, target) == Cycle(g, pcm)
    ensures Calibrated(g.stages) ==> Calibrated(g'.stages) && 0.5 <= target <= 1.0
  {
    var peakAmplitude := CalculatePeakAmplitude(pcm);
    var evaluation := peakAmplitude;
    var stages := g.stages;
    var i := 0;
    while i < |stages|
      invariant i <= |stages|
      invariant ChainedUpTo(g.stages, peakAmplitude, stages, i, evaluation)
    {
      ChainedStep(g.stages, peakAmplitude, stages, i, evaluation);
      var added := AddValue(stages[i], evaluation);
      stages := stages[i := added.next];
      evaluation := added.result;
      i := i + 1;
    }
    g' := Agc(stages);
    target := evaluation;
    StageWiseIsChain(g.stages, peakAmplitude, stages, evaluation);
    if Calibrated(g.stages) {
      CycleKeepsBounds(g.stages, peakAmplitude);
    }
  }

  /** Chain evaluations fed `xs`, first element first. */
  function FeedChain(stages: seq<Stage>, xs: seq<real>): (r: Session)
    requires Ready(stages)
    ensures |r.targets| == |xs| && |r.stages| == |stages| && Ready(r.stages)
    ensures forall i :: 0 <= i < |stages| ==>
      r.stages[i].capacity == stages[i].capacity && r.stages[i].reducer == stages[i].reducer
    decreases |xs|
  {
    if |xs| == 0 then Session(stages, [])
    else
      var s := FeedChain(stages, xs[..|xs| - 1]);
      var e := EvaluateChain(s.stages, xs[|xs| - 1]);
      Session(e.stages, s.targets + [e.target])
  }

  /** The peak amplitudes of successive capture buffers. */
  function Peaks(buffers: seq<seq<Byte>>): (xs: seq<real>)
    ensures |xs| == |buffers|
    ensures InUnitRange(xs)
  {
    seq(|buffers|, i requires 0 <= i < |buffers| => PeakAmplitude(buffers[i]))
  }

  /** One call of `evaluateMicrophoneTargetVolume` per buffer. */
  function RunBuffers(g: Agc, buffers: seq<seq<Byte>>): Session
    requires Ready(g.stages)
  {
    FeedChain(g.stages, Peaks(buffers))
  }

  /** Appending a stage leaves the earlier stages' evolution alone: the new stage
      sees the value the old chain would have returned, and its result is the
      new return value. */
  lemma {:induction false} AppendedStageSeesOldResult(stages: seq<Stage>, e: Stage, x: real)
    requires Ready(stages) && Valid(e)
    ensures Ready(stages + [e])
    ensures EvaluateChain(stages + [e], x).stages[..|stages|] == EvaluateChain(stages, x).stages
    ensures EvaluateChain(stages + [e], x).stages[|stages|] == AddValue(e, EvaluateChain(stages, x).target).next
    ensures EvaluateChain(stages + [e], x).target == AddValue(e, EvaluateChain(stages, x).target).result
    decreases |stages|
  {
    var longer := stages + [e];
    if |stages| == 0 {
      assert longer[1..] == [];
    } else {
      assert longer[1..] == stages[1..] + [e];
      AppendedStageSeesOldResult(stages[1..], e, AddValue(stages[0], x).result);
    }
  }

  /** A chain of at least one stage, run over a stream: the first stage sees the
      whole input stream, and the remaining stages see the first stage's results. */
  lemma {:induction false} FeedChainStageWise(stages: seq<Stage>, xs: seq<real>)
    requires Ready(stages) && |stages| >= 1
    ensures FeedChain(stages, xs).stages[0] == AddValues(stages[0], xs).final
    ensures FeedChain(stages, xs).stages[1..] == FeedChain(stages[1..], AddValues(stages[0], xs).results).stages
    ensures FeedChain(stages, xs).targets == FeedChain(stages[1..], AddValues(stages[0], xs).results).targets
    decreases |xs|
  {
    if |xs| > 0 {
      var n := |xs|;
      var prefix := xs[..n - 1];
      FeedChainStageWise(stages, prefix);
      var before := AddValues(stages[0], prefix);
      var now := AddValues(stages[0], xs);
      assert now.results[..n - 1] == before.results;
      var s := FeedChain(stages, prefix);
      assert s.stages == [s.stages[0]] + s.stages[1..];
    }
  }

  /** A chain with no stages returns its input. */
  lemma {:induction false} EmptyChainIsIdentity(xs: seq<real>)
    ensures FeedChain([], xs).targets == xs
    decreases |xs|
  {
    if |xs| > 0 {
      EmptyChainIsIdentity(xs[..|xs| - 1]);
    }
  }

  /** The shape of the default chain with every history entry in [0, 1]. */
  ghost predicate Calibrated(stages: seq<Stage>) {
    && |stages| == 2
    && stages[0].capacity == AmplitudeCapacity && stages[0].reducer == EvaluateAmplitude
    && stages[1].capacity == VolumeCapacity && stages[1].reducer == EvaluateMicVolume
    && (forall i :: 0 <= i < 2 ==> IsHistoryFull(stages[i]) && InUnitRange(stages[i].history))
  }

  lemma DefaultIsCalibrated()
    ensures Calibrated(Default().stages)
  {
  }

  /** One cycle of a calibrated chain on an amplitude in [0, 1] keeps it
      calibrated and returns a volume in [0.5, 1]. */
  lemma CycleKeepsBounds(stages: seq<Stage>, x: real)
    requires Calibrated(stages) && 0.0 <= x <= 1.0
    ensures Ready(stages)
    ensures Calibrated(EvaluateChain(stages, x).stages)
    ensures 0.5 <= EvaluateChain(stages, x).target <= 1.0
  {
    var a0 := AddValue(stages[0], x);
    MeanInUnitRange(a0.next.history);
    var a1 := AddValue(stages[1], a0.result);
    MicVolumeInRange(a1.next.history);
    var tail := stages[1..];
    assert tail[0] == stages[1] && tail[1..] == [];
    var last := EvaluateChain(tail, a0.result);
    assert last.stages == [a1.next] && last.target == a1.result;
    var r := EvaluateChain(stages, x);
    assert r.stages == [a0.next, a1.next];
  }

  /** Every target of a calibrated chain, over any amplitudes in [0, 1], lies in
      [0.5, 1], inside the range `setVolume` accepts. */
  lemma {:induction false} TargetsInRange(stages: seq<Stage>, xs: seq<real>)
    requires Calibrated(stages) && InUnitRange(xs)
    ensures Ready(stages)
    ensures Calibrated(FeedChain(stages, xs).stages)
    ensures forall k :: 0 <= k < |xs| ==>
      0.5 <= FeedChain(stages, xs).targets[k] <= 1.0 && SetVolumeAccepts(FeedChain(stages, xs).targets[k])
    decreases |xs|
  {
    if |xs| > 0 {
      TargetsInRange(stages, xs[..|xs| - 1]);
      CycleKeepsBounds(FeedChain(stages, xs[..|xs| - 1]).stages, xs[|xs| - 1]);
    }
  }

  /** End to end: from the default constructor, every target volume over any
      sequence of capture buffers lies in [0.5, 1]. */
  lemma DefaultTargetsInRange(buffers: seq<seq<Byte>>)
    ensures forall k :: 0 <= k < |buffers| ==>
      0.5 <= RunBuffers(Default(), buffers).targets[k] <= 1.0 && SetVolumeAccepts(RunBuffers(Default(), buffers).targets[k])
  {
    DefaultIsCalibrated();
    TargetsInRange(Default().stages, Peaks(buffers));
  }

  /** The value the default chain settles at under a constant amplitude c. */
  function SettledTarget(c: real): real {
    1.0 - 0.5 * c * (1.0 - Pow(0.8, VolumeCapacity))
  }

  /** The amplitude stage returns c from its fifth constant input on. */
  lemma AmplitudeStageSettles(xs: seq<real>, c: real)
    requires forall j :: 0 <= j < |xs| ==> xs[j] == c
    ensures forall j :: AmplitudeCapacity - 1 <= j < |xs| ==>
      AddValues(New(AmplitudeCapacity, 0.0, EvaluateAmplitude), xs).results[j] == c
  {
    SettledResults(AmplitudeCapacity, 0.0, EvaluateAmplitude, xs, c, 0);
    MeanOfConstant(AmplitudeCapacity, c);
  }

  /** The volume stage, once its inputs are c from index 4 on, returns
      1 - 0.5 * c * (1 - 0.8^20) from index 23 on. */
  lemma VolumeStageSettles(ys: seq<real>, c: real)
    requires forall j :: AmplitudeCapacity - 1 <= j < |ys| ==> ys[j] == c
    ensures forall k :: AmplitudeCapacity + VolumeCapacity - 2 <= k < |ys| ==>
      AddValues(New(VolumeCapacity, 0.0, EvaluateMicVolume), ys).results[k]
        == SettledTarget(c)
  {
    SettledResults(VolumeCapacity, 0.0, EvaluateMicVolume, ys, c, AmplitudeCapacity - 1);
    MicVolumeOfConstant(VolumeCapacity, c);
  }

  /** The default chain over a stream is its volume stage run over the returns
      of its amplitude stage run over the stream. */
  lemma DefaultChainComposesStages(xs: seq<real>)
    ensures FeedChain(Default().stages, xs).targets
         == AddValues(New(VolumeCapacity, 0.0, EvaluateMicVolume),
                      AddValues(New(AmplitudeCapacity, 0.0, EvaluateAmplitude), xs).results).results
  {
    var stages := Default().stages;
    var first := New(AmplitudeCapacity, 0.0, EvaluateAmplitude);
    var second := New(VolumeCapacity, 0.0, EvaluateMicVolume);
    assert stages == [first, second];
    FeedChainStageWise(stages, xs);
    var ys := AddValues(first, xs).results;
    assert stages[1..] == [second] && [second][1..] == [];
    FeedChainStageWise([second], ys);
    EmptyChainIsIdentity(AddValues(second, ys).results);
  }

  /** Under a constant amplitude c the default chain settles: from the 24th cycle
      on, both windows hold only c and the target is 1 - 0.5 * c * (1 - 0.8^20),
      about 0.6046 for c = 0.8. */
  lemma ConstantAmplitudeSettles(xs: seq<real>, c: real)
    requires forall j :: 0 <= j < |xs| ==> xs[j] == c
    ensures forall k :: AmplitudeCapacity + VolumeCapacity - 2 <= k < |xs| ==>
      FeedChain(Default().stages, xs).targets[k] == SettledTarget(c)
  {
    DefaultChainComposesStages(xs);
    AmplitudeStageSettles(xs, c);
    VolumeStageSettles(AddValues(New(AmplitudeCapacity, 0.0, EvaluateAmplitude), xs).results, c);
  }

  predicate NonDecreasing(xs: seq<real>) {
    forall i, j :: 0 <= i <= j < |xs| ==> xs[i] <= xs[j]
  }

  predicate NonIncreasing(xs: seq<real>) {
    forall i, j :: 0 <= i <= j < |xs| ==> xs[j] <= xs[i]
  }

  /** Two histories of the same length, ordered position by position. */
  predicate PointwiseAtMost(smaller: seq<real>, larger: seq<real>) {
    |smaller| == |larger| && forall p :: 0 <= p < |smaller| ==> smaller[p] <= larger[p]
  }

  /** Over a non-decreasing stream bounded below by the padding value, a later
      window is pointwise at least an earlier one: each position holds a later
      value of the stream, or a stream value where there was padding. */
  lemma WindowGrows(values: seq<real>, capacity: nat, zero: real, i: nat, j: nat)
    requires i <= j < |values|
    requires NonDecreasing(values)
    requires forall m :: 0 <= m < |values| ==> zero <= values[m]
    ensures PointwiseAtMost(Window(values[..i + 1], capacity, zero), Window(values[..j + 1], capacity, zero))
  {
    var earlier := Window(values[..i + 1], capacity, zero);
    var later := Window(values[..j + 1], capacity, zero);
    forall p | 0 <= p < capacity
      ensures earlier[p] <= later[p]
    {
      if p <= i {
        assert earlier[p] == values[i - p];
        assert later[p] == values[j - p];
      } else if p <= j {
        assert later[p] == values[j - p];
      }
    }
  }

  lemma WindowInUnitRange(values: seq<real>, capacity: nat, k: nat)
    requires InUnitRange(values) && k < |values|
    ensures InUnitRange(Window(values[..k + 1], capacity, 0.0))
  {
  }

  /** A non-decreasing stream of amplitudes in [0, 1] makes the amplitude stage
      return a non-decreasing stream in [0, 1]. */
  lemma AmplitudeStageRises(xs: seq<real>)
    requires InUnitRange(xs) && NonDecreasing(xs)
    ensures InUnitRange(AddValues(New(AmplitudeCapacity, 0.0, EvaluateAmplitude), xs).results)
    ensures NonDecreasing(AddValues(New(AmplitudeCapacity, 0.0, EvaluateAmplitude), xs).results)
  {
    var ys := AddValues(New(AmplitudeCapacity, 0.0, EvaluateAmplitude), xs).results;
    ResultsAreReductions(AmplitudeCapacity, 0.0, EvaluateAmplitude, xs);
    forall k | 0 <= k < |ys|
      ensures 0.0 <= ys[k] <= 1.0
    {
      WindowInUnitRange(xs, AmplitudeCapacity, k);
      MeanInUnitRange(Window(xs[..k + 1], AmplitudeCapacity, 0.0));
    }
    forall i, j | 0 <= i <= j < |ys|
      ensures ys[i] <= ys[j]
    {
      WindowGrows(xs, AmplitudeCapacity, 0.0, i, j);
      MeanMonotone(Window(xs[..i + 1], AmplitudeCapacity, 0.0), Window(xs[..j + 1], AmplitudeCapacity, 0.0));
    }
  }

  /** A non-decreasing stream of amplitudes in [0, 1] makes the volume stage
      return a non-increasing stream. */
  lemma VolumeStageFalls(ys: seq<real>)
    requires InUnitRange(ys) && NonDecreasing(ys)
    ensures NonIncreasing(AddValues(New(VolumeCapacity, 0.0, EvaluateMicVolume), ys).results)
  {
    var zs := AddValues(New(VolumeCapacity, 0.0, EvaluateMicVolume), ys).results;
    ResultsAreReductions(VolumeCapacity, 0.0, EvaluateMicVolume, ys);
    forall i, j | 0 <= i <= j < |zs|
      ensures zs[j] <= zs[i]
    {
      WindowGrows(ys, VolumeCapacity, 0.0, i, j);
      MicVolumeAntitone(Window(ys[..i + 1], VolumeCapacity, 0.0), Window(ys[..j + 1], VolumeCapacity, 0.0));
    }
  }

  /** From the default constructor, a non-decreasing stream of amplitudes in
      [0, 1] gives a non-increasing stream of target volumes. */
  lemma RisingAmplitudeLowersTarget(xs: seq<real>)
    requires InUnitRange(xs) && NonDecreasing(xs)
    ensures NonIncreasing(FeedChain(Default().stages, xs).targets)
  {
    DefaultChainComposesStages(xs);
    AmplitudeStageRises(xs);
    VolumeStageFalls(AddValues(New(AmplitudeCapacity, 0.0, EvaluateAmplitude), xs).results);
  }

  /** Under a constant amplitude c in [0, 1] the target of the default chain
      never rises from one cycle to the next, on its way to `SettledTarget(c)`. */
  lemma ConstantAmplitudeMonotone(xs: seq<real>, c: real)
    requires 0.0 <= c <= 1.0
    requires forall j :: 0 <= j < |xs| ==> xs[j] == c
    ensures forall k :: 0 <= k < |xs| - 1 ==>
      FeedChain(Default().stages, xs).targets[k + 1] <= FeedChain(Default().stages, xs).targets[k]
  {
    RisingAmplitudeLowersTarget(xs);
  }

  lemma MeanOfThree(a: real, b: real, c: real)
    ensures EvaluateAmplitude([a, b, c]) == (a + b + c) / 3.0
  {
    assert [a][..0] == [];
    assert Sum([a]) == a;
    assert [a, b][..1] == [a];
    assert Sum([a, b]) == a + b;
    assert [a, b, c][..2] == [a, b];
    assert Sum([a, b, c]) == a + b + c;
  }

  /** The usage example of `WeightedEvaluator` with a mean reducer, capacity 3
      and inputs 0, 10, 5, 15. Because the history starts as three zeros the
      returns are 0, 10/3, 5, 10; the comment beside the example gives 1 and 5
      for the first two. */
  lemma WeightedEvaluatorUsageExample()
    ensures AddValues(New(3, 0.0, EvaluateAmplitude), [0.0, 10.0, 5.0, 15.0]).results
         == [0.0, 10.0 / 3.0, 5.0, 10.0]
  {
    var xs := [0.0, 10.0, 5.0, 15.0];
    ResultsAreReductions(3, 0.0, EvaluateAmplitude, xs);
    var results := AddValues(New(3, 0.0, EvaluateAmplitude), xs).results;
    assert Window(xs[..1], 3, 0.0) == [0.0, 0.0, 0.0];
    assert Window(xs[..2], 3, 0.0) == [10.0, 0.0, 0.0];
    assert Window(xs[..3], 3, 0.0) == [5.0, 10.0, 0.0];
    assert Window(xs[..4], 3, 0.0) == [15.0, 5.0, 10.0];
    MeanOfThree(0.0, 0.0, 0.0);
    MeanOfThree(10.0, 0.0, 0.0);
    MeanOfThree(5.0, 10.0, 0.0);
    MeanOfThree(15.0, 5.0, 10.0);
    assert results == [results[0], results[1], results[2], results[3]];
  }
}
