/**
 * The integer steps of `AudioTranslationClient.preprocess_audio` (main.py):
 * collapsing two channels to one and removing leading silence.
 *
 * Reading the WAV file, the float-to-int16 rescale and the resampler are
 * foreign numerics; the samples arrive here already as int16 values, and the
 * resampler is a parameter.
 */
module Preprocess {
  import opened Pcm

  const TargetSampleRate: int := 16000

  /** The int16 samples read from the file: one value per frame, or a pair per frame for two channels. */
  datatype RawAudio = Mono(samples: seq<Int16>) | Stereo(frames: seq<(Int16, Int16)>)

  /** `m` is the exact mean of `a` and `b` rounded toward zero. */
  predicate IsTruncatedMean(a: int, b: int, m: int)
  {
    var s := a + b;
    (s >= 0 ==> 0 <= s - 2 * m <= 1) && (s < 0 ==> -1 <= s - 2 * m <= 0)
  }

  /** `numpy.mean` over the two channel values, cast back with `astype(int16)`: the mean truncated toward zero. */
  function MeanTruncated(a: Int16, b: Int16): (m: Int16)
    ensures IsTruncatedMean(a, b, m)
  {
    var s: int := a + b;
    if s >= 0 then s / 2 else -((-s) / 2)
  }

  /** Truncation is toward zero, not toward minus infinity. */
  lemma MeanTruncatesTowardZero()
    ensures MeanTruncated(-3, 0) == -1 && MeanTruncated(3, 0) == 1 && MeanTruncated(100, -100) == 0
  {
  }

  /** The stereo-to-mono step: one sample per frame, each the truncated mean of the frame's two channels. */
  function ToMono(raw: RawAudio): (r: seq<Int16>)
    ensures raw.Mono? ==> r == raw.samples
    ensures raw.Stereo? ==> |r| == |raw.frames|
    ensures raw.Stereo? ==> forall i :: 0 <= i < |r| ==> IsTruncatedMean(raw.frames[i].0, raw.frames[i].1, r[i])
  {
    match raw
    case Mono(s) => s
    case Stereo(fs) => seq(|fs|, i requires 0 <= i < |fs| => MeanTruncated(fs[i].0, fs[i].1))
  }

  /** `np.where(data != 0)[0][0]`, or `|s|` when no sample is non-zero. */
  function FirstNonZero(s: seq<Int16>): (k: nat)
    ensures k <= |s|
    ensures forall j :: 0 <= j < k ==> s[j] == 0
    ensures k < |s| ==> s[k] != 0
  {
    if s == [] then 0
    else if s[0] != 0 then 0
    else 1 + FirstNonZero(s[1..])
  }

  /** Drops the zero samples before the first non-zero one; an all-zero (or empty) buffer is returned as it is. */
  function TrimLeadingSilence(s: seq<Int16>): (r: seq<Int16>)
    ensures (exists i :: 0 <= i < |s| && s[i] != 0) ==> |r| > 0 && r[0] != 0
    ensures (forall i :: 0 <= i < |s| ==> s[i] == 0) ==> r == s
    ensures |r| <= |s| && r == s[|s| - |r|..]
    ensures forall j :: 0 <= j < |s| - |r| ==> s[j] == 0
  {
    var k := FirstNonZero(s);
    if k < |s| then s[k..] else s
  }

  /** Trimming a trimmed buffer changes nothing. */
  lemma TrimIdempotent(s: seq<Int16>)
    ensures TrimLeadingSilence(TrimLeadingSilence(s)) == TrimLeadingSilence(s)
  {
    var r := TrimLeadingSilence(s);
    if |r| > 0 && r[0] != 0 {
      assert FirstNonZero(r) == 0;
    }
  }

  /**
   * `preprocess_audio` after the file has been read as int16: mono collapse,
   * then the resampler when the rate is not 16000 Hz, then the trim.
   */
  function PreprocessAudio(raw: RawAudio, rate: int, resample: seq<Int16> -> seq<Int16>): (r: seq<Int16>)
    ensures (exists i :: 0 <= i < |r| && r[i] != 0) ==> r[0] != 0
    ensures rate == TargetSampleRate ==> r == TrimLeadingSilence(ToMono(raw))
    ensures rate != TargetSampleRate ==> r == TrimLeadingSilence(resample(ToMono(raw)))
  {
    var mono := ToMono(raw);
    var resampled := if rate != TargetSampleRate then resample(mono) else mono;
    TrimLeadingSilence(resampled)
  }
}
