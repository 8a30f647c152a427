/** Peak-amplitude extraction from a raw PCM byte buffer (agc::pcm::calculatePeakAmplitude).

The buffer is read as signed 16-bit little-endian samples. The model keeps two
behaviours of the implementation exactly as they are:
- the loop compares a BYTE offset with the SAMPLE count, so only the samples
  that start at an even offset below |pcm| / 2 are examined;
- the magnitude is computed in `int` and stored back into a `short`, so the
  magnitude of -32768 wraps to -32768 and never raises the peak.
 */
module Pcm {

  /** One element of the `std::vector<char>` buffer, as the raw bits it carries. */
  type Byte = b: int | 0 <= b < 256

  /** `1 << 15`, the divisor that normalises a peak to the 0-1 scale. */
  const FullScale: int := 32768

  /** 2^16, the modulus of the `short` type. */
  const ShortModulus: int := 65536

  predicate IsShort(n: int) {
    -32768 <= n < 32768
  }

  predicate AllShort(samples: seq<int>) {
    forall k :: 0 <= k < |samples| ==> IsShort(samples[k])
  }

  function Abs(n: int): nat {
    if n < 0 then -n else n
  }

  /** The value of the `short` read through `reinterpret_cast` at a byte pair:
      little-endian, two's complement. */
  function DecodeSample(lo: Byte, hi: Byte): (s: int)
    ensures IsShort(s)
    ensures s < 0 <==> hi >= 128
    ensures s == lo + 256 * hi || s == lo + 256 * hi - ShortModulus
  {
    var u := lo + 256 * hi;
    if u >= 32768 then u - ShortModulus else u
  }

  /** The two bytes (low first) that hold a `short` in memory. */
  function EncodeSample(s: int): (bytes: (Byte, Byte))
    requires IsShort(s)
  {
    var u := if s < 0 then s + ShortModulus else s;
    (u % 256, u / 256)
  }

  lemma DecodeEncode(s: int)
    requires IsShort(s)
    ensures DecodeSample(EncodeSample(s).0, EncodeSample(s).1) == s
  {
  }

  lemma EncodeDecode(lo: Byte, hi: Byte)
    ensures EncodeSample(DecodeSample(lo, hi)) == (lo, hi)
  {
  }

  /** `short sample = std::abs(x)`: the absolute value is taken in `int`, where
      it lies in 0..32768, and narrowed back to `short`, which maps a value of
      32768 or more to itself minus 2^16. */
  function ShortAbs(s: int): (m: int)
    requires IsShort(s)
    ensures IsShort(m)
    ensures s == -32768 ==> m == -32768
    ensures s != -32768 ==> m == Abs(s) && 0 <= m < 32768
  {
    var magnitude := Abs(s);
    if magnitude >= 32768 then magnitude - ShortModulus else magnitude
  }

  /** How many samples the loop examines. */
  function ExaminedCount(len: nat): (n: nat)
    ensures 2 * n <= len / 2 + 1
    ensures len <= 1 ==> n == 0
  {
    (len / 2 + 1) / 2
  }

  /** The k-th examined sample starts at byte offset 2k below the sample count,
      and both bytes it reads lie inside the buffer. */
  lemma ExaminedIndex(len: nat, k: nat)
    ensures k < ExaminedCount(len) <==> 2 * k < len / 2
    ensures k < ExaminedCount(len) ==> 2 * k + 1 < len
  {
  }

  /** The samples the loop examines, in the order it examines them. */
  function ExaminedSamples(pcm: seq<Byte>): (samples: seq<int>)
    ensures |samples| == ExaminedCount(|pcm|)
    ensures AllShort(samples)
  {
    var n := ExaminedCount(|pcm|);
    seq(n, k requires 0 <= k < n => DecodeSample(pcm[2 * k], pcm[2 * k + 1]))
  }

  /** The k-th examined sample is the one at byte offsets 2k and 2k + 1. */
  lemma ExaminedSampleAt(pcm: seq<Byte>, k: nat)
    requires k < ExaminedCount(|pcm|)
    ensures 2 * k + 1 < |pcm|
    ensures ExaminedSamples(pcm)[k] == DecodeSample(pcm[2 * k], pcm[2 * k + 1])
  {
    ExaminedIndex(|pcm|, k);
  }

  /** The integer value of `peak` after the loop has seen `samples`: the largest
      magnitude among the samples other than -32768, or 0 when there is none. */
  function MaxMagnitude(samples: seq<int>): (p: int)
    requires AllShort(samples)
    ensures 0 <= p < 32768
    ensures forall k :: 0 <= k < |samples| && samples[k] != -32768 ==> Abs(samples[k]) <= p
    ensures p == 0 || exists k :: 0 <= k < |samples| && samples[k] != -32768 && Abs(samples[k]) == p
    decreases |samples|
  {
    if |samples| == 0 then 0
    else
      var peak := MaxMagnitude(samples[..|samples| - 1]);
      var sample := ShortAbs(samples[|samples| - 1]);
      if peak < sample then sample else peak
  }

  /** One more loop iteration: the peak of a longer prefix. */
  lemma MaxMagnitudeExtend(samples: seq<int>, k: nat)
    requires AllShort(samples) && k < |samples|
    ensures MaxMagnitude(samples[..k + 1])
         == if MaxMagnitude(samples[..k]) < ShortAbs(samples[k]) then ShortAbs(samples[k]) else MaxMagnitude(samples[..k])
  {
    assert samples[..k + 1][..k] == samples[..k];
  }

  /** The value `calculatePeakAmplitude` returns for `pcm`. */
  function PeakAmplitude(pcm: seq<Byte>): (r: real)
    ensures 0.0 <= r <= 32767.0 / 32768.0
    ensures r < 1.0
    ensures |pcm| <= 1 ==> r == 0.0
  {
    (MaxMagnitude(ExaminedSamples(pcm)) as real) / (FullScale as real)
  }

  /** The state of the loop after k iterations: the offset `i` is 2k, another
      sample remains exactly when `i` is below the sample count, and `peak` is the
      peak of the first k examined samples. */
  ghost predicate ScannedUpTo(pcm: seq<Byte>, i: int, k: nat, peak: int) {
    && i == 2 * k
    && k <= ExaminedCount(|pcm|)
    && (k < ExaminedCount(|pcm|) <==> i < |pcm| / 2)
    && peak == MaxMagnitude(ExaminedSamples(pcm)[..k])
  }

  /** Before the first iteration nothing has been examined. */
  lemma ScanStart(pcm: seq<Byte>)
    ensures ScannedUpTo(pcm, 0, 0, 0)
  {
    ExaminedIndex(|pcm|, 0);
    assert ExaminedSamples(pcm)[..0] == [];
  }

  /** The offsets of one iteration: the bytes read lie inside the buffer, and
      the next offset passes the loop test exactly when another sample remains. */
  lemma ScanStepIndex(len: nat, i: int, k: nat)
    requires i == 2 * k && k <= ExaminedCount(len) && i < len / 2
    ensures k < ExaminedCount(len) && 0 <= i && i + 1 < len
    ensures k + 1 < ExaminedCount(len) <==> i + 2 < len / 2
  {
    ExaminedIndex(len, k);
    ExaminedIndex(len, k + 1);
  }

  /** The peak of one iteration: the updated peak covers one more sample. */
  lemma ScanStepPeak(pcm: seq<Byte>, k: nat, peak: int)
    requires k < ExaminedCount(|pcm|) && peak == MaxMagnitude(ExaminedSamples(pcm)[..k])
    ensures 2 * k + 1 < |pcm|
    ensures var sample := ShortAbs(DecodeSample(pcm[2 * k], pcm[2 * k + 1]));
            (if peak < sample then sample else peak) == MaxMagnitude(ExaminedSamples(pcm)[..k + 1])
  {
    ExaminedSampleAt(pcm, k);
    MaxMagnitudeExtend(ExaminedSamples(pcm), k);
  }

  /** One iteration of the loop: its reads stay inside the buffer, and the
      updated peak covers one more sample. */
  lemma ScanStep(pcm: seq<Byte>, i: int, k: nat, peak: int)
    requires ScannedUpTo(pcm, i, k, peak) && i < |pcm| / 2
    ensures 0 <= i && i + 1 < |pcm|
    ensures var sample := ShortAbs(DecodeSample(pcm[i], pcm[i + 1]));
            ScannedUpTo(pcm, i + 2, k + 1, if peak < sample then sample else peak)
  {
    ScanStepIndex(|pcm|, i, k);
    ScanStepPeak(pcm, k, peak);
    var sample := ShortAbs(DecodeSample(pcm[i], pcm[i + 1]));
    var next := if peak < sample then sample else peak;
    assert next == MaxMagnitude(ExaminedSamples(pcm)[..k + 1]);
  }

  /** When the loop stops, `peak` is the peak of every examined sample. */
  lemma ScanDone(pcm: seq<Byte>, i: int, k: nat, peak: int)
    requires ScannedUpTo(pcm, i, k, peak) && !(i < |pcm| / 2)
    ensures peak == MaxMagnitude(ExaminedSamples(pcm))
  {
    assert ExaminedSamples(pcm)[..k] == ExaminedSamples(pcm);
  }

  /** The loop of `calculatePeakAmplitude`, statement for statement. */
  method CalculatePeakAmplitude(pcm: seq<Byte>) returns (amplitude: real)
    ensures amplitude == PeakAmplitude(pcm)
  {
    var numberOfSamples := |pcm| / 2;
    var peak := 0;
    var i := 0;
    ghost var k := 0;
    ScanStart(pcm);
    while i < numberOfSamples
      invariant ScannedUpTo(pcm, i, k, peak)
    {
      ScanStep(pcm, i, k, peak);
      var sample := ShortAbs(DecodeSample(pcm[i], pcm[i + 1]));
      if peak < sample {
        peak := sample;
      }
      i := i + 2;
      k := k + 1;
    }
    ScanDone(pcm, i, k, peak);
    amplitude := (peak as real) / (FullScale as real);
  }

  /** An all-zero buffer has peak amplitude exactly 0. */
  lemma AllZeroBufferIsSilent(pcm: seq<Byte>)
    requires forall j :: 0 <= j < |pcm| ==> pcm[j] == 0
    ensures PeakAmplitude(pcm) == 0.0
  {
    var samples := ExaminedSamples(pcm);
    assert forall k :: 0 <= k < |samples| ==> samples[k] == 0;
  }

  /** Bytes from offset |pcm| / 2 + 1 on are never read: two buffers of the same
      length that agree below that offset have the same peak amplitude. */
  lemma TailBytesIgnored(pcm: seq<Byte>, other: seq<Byte>)
    requires |pcm| == |other|
    requires forall j :: 0 <= j <= |pcm| / 2 && j < |pcm| ==> pcm[j] == other[j]
    ensures PeakAmplitude(pcm) == PeakAmplitude(other)
  {
    assert ExaminedSamples(pcm) == ExaminedSamples(other);
  }

  /** A sample of -32768 never changes the peak found so far. */
  lemma MinimumSampleIgnored(samples: seq<int>)
    requires AllShort(samples)
    ensures MaxMagnitude(samples + [-32768]) == MaxMagnitude(samples)
  {
    assert (samples + [-32768])[..|samples|] == samples;
  }

  /** A buffer whose only sample is -32768 yields 0, not 1. */
  lemma MinimumSampleBuffer()
    ensures PeakAmplitude([0x00, 0x80, 0x00, 0x00]) == 0.0
  {
    var pcm: seq<Byte> := [0x00, 0x80, 0x00, 0x00];
    assert ExaminedSamples(pcm) == [-32768];
    assert [-32768][..0] == [];
  }

  /** In a 4-byte buffer only the first sample is examined: a full-scale second
      sample (32767 at offset 2) is not seen. */
  lemma SecondHalfNotExamined()
    ensures PeakAmplitude([0x00, 0x00, 0xFF, 0x7F]) == 0.0
  {
    var pcm: seq<Byte> := [0x00, 0x00, 0xFF, 0x7F];
    assert ExaminedSamples(pcm) == [0];
    assert [0][..0] == [];
  }

  /** In an 8-byte buffer the samples at offsets 0 and 2 are examined. */
  lemma FirstTwoSamplesOfEight()
    ensures PeakAmplitude([0x00, 0x00, 0x00, 0x40, 0xFF, 0x7F, 0xFF, 0x7F]) == 0.5
  {
    var pcm: seq<Byte> := [0x00, 0x00, 0x00, 0x40, 0xFF, 0x7F, 0xFF, 0x7F];
    assert ExaminedSamples(pcm) == [0, 16384];
    assert [0, 16384][..1] == [0];
    assert [0][..0] == [];
  }
}
