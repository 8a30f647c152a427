# agclib gain-evaluation pipeline in Dafny

This project models the gain-evaluation core of `agclib`, an automatic
microphone gain controller. The core has three parts:

- `pcm::calculatePeakAmplitude` turns a PCM byte buffer into a normalised
  peak amplitude (module `Pcm`, file `pcm.dfy`).
- `WeightedEvaluator<T, S>` is a bounded, most-recent-first history with a
  pluggable reducer (module `WeightedEvaluator`, file `weighted_evaluator.dfy`).
- `AutomaticGainControl` is a chain of evaluators. Its reducers
  `evaluateAmplitude` and `evaluateMicVolume` are in module `GainReducers`
  (`gain_reducers.dfy`). The chain itself is in module `AutomaticGainControl`
  (`automatic_gain_control.dfy`).

Everything is immutable. An evaluator is the datatype
`Evaluator(capacity, history, reducer)`, with the history as a `seq` (newest
first) and the reducer as a function value. The controller is a `seq` of
evaluators. A C++ member function that mutates state becomes a function that
returns the new state together with the result. `double` is modelled as `real`.
PCM bytes are `0..255`, samples and peaks are `int`, and the only `real`
operation in the PCM part is the final division by 32768.

The model follows the code as written, including the places where the code
does something other than what its comments or names suggest:

- The constructor sizes the history to `capacity` zeros, so the history is
  full from the first call. The usage example in the comment at
  `WeightedEvaluator.h:17-18` says the first two returns are 1 and 5. In fact
  they are 0 and 10/3 (`AutomaticGainControl.WeightedEvaluatorUsageExample`).
- The PCM loop compares a byte offset with the sample count. It therefore
  examines only the samples at even offsets below `|pcm| / 2`, which is
  roughly the first half of the buffer.
- `std::abs` of the sample -32768 is stored back into a `short`, where it wraps
  to -32768. Such a sample never raises the peak, and a buffer holding only it
  yields 0.0, not 1.0.
- `evaluateMicVolume` folds from the head of the list, where the newest value
  sits. The oldest value therefore gets the largest weight, whatever the name
  `favorNewFactor` suggests.

End to end, from the default constructor and for any sequence of buffers, every
target volume lies in [0.5, 1]. That is inside the 0.0 to 1.0 scale promised
at `AutomaticGainControl.h:23`, and inside the range that
`MicrophoneController::setVolume` asserts (`MicrophoneController.cpp:45`).
Under a constant amplitude c the chain settles from the 24th cycle on. From
then on it returns 1 - 0.5·c·(1 - 0.8^20), which is about 0.6046 for c = 0.8.
On the way there the target never rises from one cycle to the next. More
generally, any non-decreasing stream of amplitudes in [0, 1] gives a
non-increasing stream of targets.

## Model

| member | source | states |
|---|---|---|
| `WeightedEvaluator.New` | agclib/WeightedEvaluator.h:50-57 | the constructor keeps capacity and reducer, and its history holds exactly `capacity` default (zero) values, so it is full rather than empty |
| `WeightedEvaluator.AddValue` | agclib/WeightedEvaluator.h:59-67 | with capacity at least 1, the new value goes to the front; when full, the oldest value is dropped and the length stays at capacity; the other values keep their order; the return is the reducer applied to the new history; capacity and reducer never change |
| `WeightedEvaluator.AddValues` | agclib/WeightedEvaluator.h:59-67 | repeated `addValue` returns one result per input, keeps capacity and reducer, and preserves both the state invariant and fullness |
| `WeightedEvaluator.ReachableIsFull` | agclib/WeightedEvaluator.h:51-73 | `isHistoryFull()` holds after construction and after any sequence of insertions |
| `WeightedEvaluator.HistoryAfterInserts` | agclib/WeightedEvaluator.h:54-66 | after inserting v1..vk into a fresh evaluator, position i of the history holds the i-th most recent value, or zero: the last min(k, c) values newest first, then c - min(k, c) zeros |
| `WeightedEvaluator.ResultsAreReductions` | agclib/WeightedEvaluator.h:62-66 | the k-th return is the reducer applied to the window of the first k + 1 inputs |
| `WeightedEvaluator.SaturatedByConstant` | agclib/WeightedEvaluator.h:62-65 | after at least `capacity` copies of v the history is all v |
| `WeightedEvaluator.SettledResults` | agclib/WeightedEvaluator.h:62-66 | once the inputs are constantly v, every return from `capacity - 1` inputs later on is the reducer of an all-v history |
| `AutomaticGainControl.WeightedEvaluatorUsageExample` | agclib/WeightedEvaluator.h:12-20 | with a mean reducer, capacity 3 and inputs 0, 10, 5, 15, the returns are 0, 10/3, 5, 10 |
| `Pcm.DecodeSample` | agclib/PCM.cpp:13 | a byte pair read as a little-endian `short` is in the `short` range, is negative iff the high byte is at least 128, and equals the unsigned value or that value minus 2^16 |
| `Pcm.DecodeEncode` | agclib/PCM.cpp:13 | decoding the in-memory bytes of a `short` gives the `short` back |
| `Pcm.EncodeDecode` | agclib/PCM.cpp:13 | every byte pair is the in-memory form of the sample it decodes to, so decoding is a bijection |
| `Pcm.ShortAbs` | agclib/PCM.cpp:13 | `std::abs` narrowed to `short` maps -32768 to -32768 and every other sample to its magnitude in 0..32767 |
| `Pcm.ExaminedCount` | agclib/PCM.cpp:10-12 | a buffer of 0 or 1 bytes has no examined sample, and at most about a quarter of the byte count is examined |
| `Pcm.ExaminedIndex` | agclib/PCM.cpp:10-12 | the k-th examined sample starts at byte offset 2k, and that offset is below the sample count `len / 2`; both bytes read are inside the buffer |
| `Pcm.ExaminedSampleAt` | agclib/PCM.cpp:12-13 | the k-th examined sample is the one decoded from bytes 2k and 2k + 1 |
| `Pcm.MaxMagnitude` | agclib/PCM.cpp:11-17 | the peak the loop keeps is in 0..32767, bounds the magnitude of every examined sample other than -32768, and is either 0 or the magnitude of such a sample |
| `Pcm.PeakAmplitude` | agclib/PCM.cpp:8-21 | the result is the peak divided by 32768; it lies in [0, 32767/32768], so it is below 1; it is 0 for buffers of 0 or 1 bytes |
| `Pcm.CalculatePeakAmplitude` | agclib/PCM.cpp:8-21 | the loop as written, stepping a byte offset by 2 while it is below the sample count, returns `PeakAmplitude` |
| `Pcm.AllZeroBufferIsSilent` | agclib/PCM.cpp:11-20 | an all-zero buffer yields exactly 0.0 |
| `Pcm.TailBytesIgnored` | agclib/PCM.cpp:10-13 | changing bytes at offsets above `len / 2` never changes the result |
| `Pcm.MinimumSampleIgnored` | agclib/PCM.cpp:13-16 | a sample of -32768 never changes the peak |
| `Pcm.MinimumSampleBuffer` | agclib/PCM.cpp:13-16 | a buffer whose only examined sample is -32768 yields 0.0 |
| `Pcm.SecondHalfNotExamined` | agclib/PCM.cpp:10-12 | in a 4-byte buffer a full-scale sample at offset 2 is not seen and the result is 0.0 |
| `Pcm.FirstTwoSamplesOfEight` | agclib/PCM.cpp:10-20 | in an 8-byte buffer only the samples at offsets 0 and 2 count: 16384 there gives 0.5, although later samples are 32767 |
| `GainReducers.MeanInUnitRange` | agclib/AutomaticGainControl.cpp:9-14 | `evaluateAmplitude`, the sum divided by the size, of a non-empty list of amplitudes in [0, 1] is in [0, 1] |
| `GainReducers.MeanOfConstant` | agclib/AutomaticGainControl.cpp:9-14 | the mean of n >= 1 copies of c is c |
| `GainReducers.FoldIsWeightedSum` | agclib/AutomaticGainControl.cpp:18-23 | the head-first fold `acc <- 0.8 acc + 0.1 a` equals 0.8^n times the start value plus the sum over positions j (0 = newest) of 0.1·0.8^(n-1-j)·a[j] |
| `GainReducers.MicVolumeIsWeighted` | agclib/AutomaticGainControl.cpp:16-27 | `evaluateMicVolume` is 1 minus that weighted sum, in which the oldest entry has weight 0.1 and the newest 0.1·0.8^(n-1) |
| `GainReducers.FoldVolumeBounds` | agclib/AutomaticGainControl.cpp:21-23 | for amplitudes in [0, 1] the accumulator stays in [0, 0.5] |
| `GainReducers.MicVolumeInRange` | agclib/AutomaticGainControl.cpp:16-27 | for amplitudes in [0, 1] `evaluateMicVolume` is in [0.5, 1] |
| `GainReducers.FoldOfConstant` | agclib/AutomaticGainControl.cpp:18-23 | folding n copies of c from accumulator v gives 0.8^n·v + 0.5·c·(1 - 0.8^n) |
| `GainReducers.MicVolumeOfConstant` | agclib/AutomaticGainControl.cpp:16-27 | for n copies of c, `evaluateMicVolume` is 1 - 0.5·c·(1 - 0.8^n) |
| `GainReducers.MeanMonotone` | agclib/AutomaticGainControl.cpp:9-14 | raising entries of a non-empty history, position by position, never lowers `evaluateAmplitude` |
| `GainReducers.WeightedSumMonotone` | agclib/AutomaticGainControl.cpp:18-23 | every weight of the fold is nonnegative, so raising entries never lowers the folded amplitude |
| `GainReducers.MicVolumeAntitone` | agclib/AutomaticGainControl.cpp:16-27 | raising entries of the history, position by position, never raises `evaluateMicVolume` |
| `GainReducers.OldestWeighsMost` | agclib/AutomaticGainControl.cpp:18-22 | a loud oldest entry lowers the volume more (0.9) than a loud newest entry (0.92) |
| `AutomaticGainControl.Default` | agclib/AutomaticGainControl.cpp:29-33 | the default chain has exactly two stages: capacity 5 with `evaluateAmplitude`, then capacity 20 with `evaluateMicVolume`, each with a history of zeros |
| `AutomaticGainControl.DefaultIsCalibrated` | agclib/AutomaticGainControl.cpp:29-33 | the default chain has full histories with entries in [0, 1] |
| `AutomaticGainControl.AddWeightedEvaluator` | agclib/AutomaticGainControl.cpp:35-38 | appending adds exactly one stage, a copy of the argument, at the end and leaves every earlier stage unchanged; appending an evaluator that keeps the evaluator invariant keeps the whole chain ready |
| `AutomaticGainControl.AppendedStageSeesOldResult` | agclib/AutomaticGainControl.cpp:35-49 | after appending, the earlier stages evolve as before; the new stage receives the value the old chain would have returned, and its result becomes the return value |
| `AutomaticGainControl.EvaluateChain` | agclib/AutomaticGainControl.cpp:45-49 | one pass keeps the number of stages and each stage's capacity and reducer; an empty chain returns its input |
| `AutomaticGainControl.ChainUpdatesStage` | agclib/AutomaticGainControl.cpp:46-48 | stage i is replaced by its `addValue` of the value it receives |
| `AutomaticGainControl.ChainReturnsLastResult` | agclib/AutomaticGainControl.cpp:46-49 | the chain returns the last stage's result |
| `AutomaticGainControl.ChainFeedsForward` | agclib/AutomaticGainControl.cpp:45-49 | each stage's `addValue` is called exactly once, in order; stage 0 receives the input, stage i receives stage i-1's result, and the last result is returned |
| `AutomaticGainControl.EvaluateMicrophoneTargetVolume` | agclib/AutomaticGainControl.cpp:40-50 | the loop as written threads the peak amplitude through every stage once, and its new stages and target are exactly one chain evaluation of the peak amplitude (`Cycle`); the target is the last stage's output, and `ChainFeedsForward` gives the stage-by-stage reading; from a calibrated chain the result lies in [0.5, 1] and the chain stays calibrated |
| `AutomaticGainControl.FeedChain` | agclib/AutomaticGainControl.cpp:40-50 | repeated evaluation returns one target per input and keeps the stages' number, capacities and reducers |
| `AutomaticGainControl.Peaks` | agclib/AutomaticGainControl.cpp:42 | the peak amplitudes of successive buffers are in [0, 1] |
| `AutomaticGainControl.FeedChainStageWise` | agclib/AutomaticGainControl.cpp:46-48 | over a stream of inputs, the first stage sees the whole stream and the remaining stages see the first stage's results |
| `AutomaticGainControl.EmptyChainIsIdentity` | agclib/AutomaticGainControl.cpp:43-49 | a chain with no stages returns each input unchanged |
| `AutomaticGainControl.CycleKeepsBounds` | agclib/AutomaticGainControl.cpp:40-50 | one cycle of the default-shaped chain on an amplitude in [0, 1] keeps every history entry in [0, 1] and returns a volume in [0.5, 1] |
| `AutomaticGainControl.TargetsInRange` | agclib/AutomaticGainControl.cpp:40-50 | over any amplitudes in [0, 1], every target lies in [0.5, 1], inside the range `setVolume` accepts |
| `AutomaticGainControl.DefaultTargetsInRange` | agclib/AutomaticGainControl.cpp:29-50 | from the default constructor, the target for every buffer of any sequence lies in [0.5, 1] |
| `AutomaticGainControl.AmplitudeStageSettles` | agclib/AutomaticGainControl.cpp:9-14 | under constant input c, the amplitude stage returns c from its fifth call on |
| `AutomaticGainControl.VolumeStageSettles` | agclib/AutomaticGainControl.cpp:16-27 | when its inputs are c from index 4 on, the volume stage returns 1 - 0.5·c·(1 - 0.8^20) from index 23 on |
| `AutomaticGainControl.DefaultChainComposesStages` | agclib/AutomaticGainControl.cpp:29-50 | over a stream, the default chain's targets are the volume stage's returns on the amplitude stage's returns on the stream |
| `AutomaticGainControl.WindowGrows` | agclib/WeightedEvaluator.h:62-66 | over a non-decreasing stream bounded below by the padding zero, a later history is at least an earlier one at every position |
| `AutomaticGainControl.AmplitudeStageRises` | agclib/AutomaticGainControl.cpp:9-14 | on a non-decreasing stream in [0, 1], the amplitude stage returns a non-decreasing stream in [0, 1] |
| `AutomaticGainControl.VolumeStageFalls` | agclib/AutomaticGainControl.cpp:16-27 | on a non-decreasing stream in [0, 1], the volume stage returns a non-increasing stream |
| `AutomaticGainControl.RisingAmplitudeLowersTarget` | agclib/AutomaticGainControl.cpp:29-50 | from the default constructor, a non-decreasing stream of amplitudes in [0, 1] gives a non-increasing stream of targets |
| `AutomaticGainControl.ConstantAmplitudeMonotone` | agclib/AutomaticGainControl.cpp:29-50 | under a constant amplitude c in [0, 1], the default chain's target never rises from one cycle to the next |
| `AutomaticGainControl.ConstantAmplitudeSettles` | agclib/AutomaticGainControl.cpp:29-50 | the default chain under a constant amplitude c returns 1 - 0.5·c·(1 - 0.8^20) from the 24th cycle on |

## Left out

- `agctest/Main.cpp` is not modelled. It is a Windows `waveIn` capture loop with `Sleep` polling and console output. Its `calculatePeakAmplitude` duplicates the library one. Its `calculateRMS` and `convertRMStoDecibel` need `sqrt` and `log10`. Its integer-accumulating lambda is test-driver code.
- `MicrophoneController` is a COM `IAudioEndpointVolume` wrapper, so it is not modelled. Only the range that `setVolume` asserts is kept, as the predicate `SetVolumeAccepts`. The conversion from `double` to `float` at that call is not modelled.
- `COM.cpp` / `COM.h` are not modelled. They handle COM initialisation and HRESULT-to-exception conversion, which are foreign calls.
- IEEE-754 rounding is not modelled: `double` is `real`, so floating-point error is out of scope.
- `std::list` and `std::function` allocation is not modelled. An evaluator is a value, so the copy in `push_back` is only value semantics.
- No per-cycle driver with hysteresis or volume restoration appears in these files, so none is modelled.
- `size_t` is modelled as an unbounded `nat`. Buffer lengths and capacities near the top of the `size_t` range are not modelled.
- `GainReducers.EvaluateAmplitude` returns 0.0 for an empty list, where the source divides 0 by 0 and gets NaN. An evaluator never hands its reducer an empty history, so this case is never reached from `addValue`.
- `Pcm.ShortAbs` models the `int`-to-`short` narrowing only for the values 0..32768 that `std::abs` of a `short` can produce. It wraps 32768 to -32768, as the platform's two's-complement conversion does.
- `WeightedEvaluator.AddValue` requires capacity at least 1. With capacity 0 the history is full and empty, and `pop_back` on an empty list is undefined. The constructor `WeightedEvaluator.New` accepts capacity 0, as the source does. The chain requires every stage, and every evaluator passed to `addWeightedEvaluator`, to satisfy `WeightedEvaluator.Valid`: capacity at least 1 and a history no longer than the capacity. Every evaluator the constructor builds with capacity at least 1 satisfies it, and `addValue` preserves it.
- `Pcm.DecodeSample` fixes little-endian byte order. The `reinterpret_cast` at `PCM.cpp:13` reads in the host's byte order, and the library targets Windows (COM, `waveIn`), which is little-endian. A big-endian host is not modelled.
