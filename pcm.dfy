/** Sample formats of the mixer: 16-bit signed PCM on the device side and
    normalised stereo frames on the asset side, with the conversions between
    them.  Floating-point samples are modelled as exact reals. */
module Pcm {

  /** Largest and smallest value of a signed 16-bit sample. */
  const Int16Max: int := 32767
  const Int16Min: int := -32768

  type Int16 = x: int | -32768 <= x <= 32767

  /** Output layout: interleaved stereo. */
  const OutputChannels: nat := 2

  /** Bytes of one interleaved 16-bit stereo frame; the source calls it
      bytesPerSample because SDL counts a stereo frame as one "sample". */
  const BytesPerFrame: nat := 2 * OutputChannels

  /** Lowest value a normalised sample can take: INT16_MIN / INT16_MAX. */
  const MinNormalised: real := Int16Min as real / Int16Max as real

  predicate InInt16(x: int) {
    Int16Min <= x <= Int16Max
  }

  /** Normalised range of a sample read from 16-bit source data. */
  predicate Normalised(x: real) {
    MinNormalised <= x <= 1.0
  }

  /** A decoded source sample scaled to floating point: `s / INT16_MAX`. */
  function Scale(s: Int16): (r: real)
    ensures Normalised(r)
    ensures r * Int16Max as real == s as real
  {
    s as real / Int16Max as real
  }

  /** C's conversion of a floating-point value to an integer: the fraction
      is dropped, rounding toward zero. */
  function TruncToZero(v: real): int {
    if v >= 0.0 then v.Floor else -((-v).Floor)
  }

  /** The truncated value is the integer next to `v` on the side of zero. */
  lemma TruncToZeroBounds(v: real)
    ensures v >= 0.0 ==> 0 <= TruncToZero(v) && TruncToZero(v) as real <= v < TruncToZero(v) as real + 1.0
    ensures v < 0.0 ==> TruncToZero(v) <= 0 && TruncToZero(v) as real - 1.0 < v <= TruncToZero(v) as real
  {
  }

  /** The device sample written for a mixed value: `(int16_t)(x * INT16_MAX)`.
      The result is left unbounded: the cast is only defined in C when the
      truncated value fits 16 bits, which QuantizeFits states. */
  function Quantize(x: real): int {
    TruncToZero(x * Int16Max as real)
  }

  /** The device sample is `x * INT16_MAX` with its fraction dropped toward
      zero. */
  lemma QuantizeTruncates(x: real)
    ensures x >= 0.0 ==> 0 <= Quantize(x) && Quantize(x) as real <= x * Int16Max as real < Quantize(x) as real + 1.0
    ensures x < 0.0 ==> Quantize(x) <= 0 && Quantize(x) as real - 1.0 < x * Int16Max as real <= Quantize(x) as real
  {
    TruncToZeroBounds(x * Int16Max as real);
  }

  /** Every value in the normalised range (in particular any result of a
      soft clip into [-1, 1]) converts to a 16-bit sample. */
  lemma QuantizeFits(x: real)
    requires Normalised(x)
    ensures InInt16(Quantize(x))
  {
    var v := x * Int16Max as real;
    assert Int16Min as real <= v <= Int16Max as real;
    QuantizeTruncates(x);
  }

  /** Converting a scaled source sample back gives the source sample:
      a lone channel reproduces its asset's PCM data exactly. */
  lemma QuantizeScale(s: Int16)
    ensures Quantize(Scale(s)) == s
  {
    assert Scale(s) * Int16Max as real == s as real;
    QuantizeTruncates(Scale(s));
    if s >= 0 {
      assert (s as real).Floor == s;
    } else {
      assert (-(s as real)).Floor == -(s as int);
    }
  }

  /** Source index of the right-hand sample of frame `i` in data with `ch`
      interleaved channels: mono data repeats the single sample, other
      layouts take the second channel. */
  function RightIndex(i: nat, ch: nat): nat
    requires ch >= 1
  {
    if ch == 1 then i * ch else i * ch + 1
  }

  /** Both source indices of frame `i` lie inside data holding at least
      `frames * ch` samples. */
  lemma FrameIndexInRange(i: nat, ch: nat, frames: nat, n: nat)
    requires ch >= 1 && i < frames && frames * ch <= n
    ensures i * ch < n && RightIndex(i, ch) < n
  {
    assert (i + 1) * ch <= frames * ch;
    assert i * ch + ch <= n;
  }

  /** Whole quotients of a natural number: nonnegative, and no more than
      the dividend once multiplied back. */
  lemma WholeQuotient(a: nat, d: nat)
    requires d > 0
    ensures 0 <= a / d && (a / d) * d <= a
  {
    var q, r := a / d, a % d;
    assert a == q * d + r && 0 <= r < d;
  }

  /** The number of whole frames in `bytes` bytes of 16-bit data with `ch`
      channels never needs more samples than the data holds. */
  lemma FramesFit(bytes: nat, ch: nat)
    requires ch >= 1
    ensures 0 <= bytes / (2 * ch)
    ensures (bytes / (2 * ch)) * ch <= bytes / 2
  {
    var f := bytes / (2 * ch);
    WholeQuotient(bytes, 2 * ch);
    assert f * (2 * ch) == (f * ch) * 2;
  }

  /** The uniform stereo layout of the first `frames` frames of `pcm`:
      left then right, each scaled to floating point. */
  function Normalize(pcm: seq<Int16>, ch: nat, frames: nat): (r: seq<real>)
    requires ch >= 1 && frames * ch <= |pcm|
    ensures |r| == 2 * frames
    ensures forall k :: 0 <= k < |r| ==> Normalised(r[k])
  {
    if frames == 0 then []
    else
      assert (frames - 1) * ch <= frames * ch;
      FrameIndexInRange(frames - 1, ch, frames, |pcm|);
      Normalize(pcm, ch, frames - 1)
        + [Scale(pcm[(frames - 1) * ch]), Scale(pcm[RightIndex(frames - 1, ch)])]
  }

  /** Normalising one more frame appends that frame's left and right sample. */
  lemma NormalizeNext(pcm: seq<Int16>, ch: nat, frames: nat, i: nat)
    requires ch >= 1 && frames * ch <= |pcm| && i < frames
    ensures (i + 1) * ch <= |pcm| && i * ch < |pcm| && RightIndex(i, ch) < |pcm|
    ensures Normalize(pcm, ch, i + 1)
         == Normalize(pcm, ch, i) + [Scale(pcm[i * ch]), Scale(pcm[RightIndex(i, ch)])]
  {
    FrameIndexInRange(i, ch, frames, |pcm|);
    assert (i + 1) * ch <= frames * ch;
  }

  /** Frame `i` of the normalised data is built from frame `i` of the source:
      its first channel on the left, and on the right the same sample for
      mono data or the second channel otherwise. */
  lemma {:induction false} NormalizeFrame(pcm: seq<Int16>, ch: nat, frames: nat, i: nat)
    requires ch >= 1 && frames * ch <= |pcm| && i < frames
    ensures i * ch < |pcm| && RightIndex(i, ch) < |pcm|
    ensures Normalize(pcm, ch, frames)[2 * i] == Scale(pcm[i * ch])
    ensures Normalize(pcm, ch, frames)[2 * i + 1] == Scale(pcm[RightIndex(i, ch)])
  {
    FrameIndexInRange(i, ch, frames, |pcm|);
    if i < frames - 1 {
      assert (frames - 1) * ch <= frames * ch;
      NormalizeFrame(pcm, ch, frames - 1, i);
    }
  }

  /** Mono source data is duplicated into both stereo channels. */
  lemma MonoDuplicated(pcm: seq<Int16>, i: nat)
    requires i < |pcm|
    ensures Normalize(pcm, 1, |pcm|)[2 * i] == Normalize(pcm, 1, |pcm|)[2 * i + 1] == Scale(pcm[i])
  {
    NormalizeFrame(pcm, 1, |pcm|, i);
  }

  /** Stereo source data keeps its left and right samples, each divided by
      INT16_MAX. */
  lemma StereoScaled(pcm: seq<Int16>, frames: nat, i: nat)
    requires 2 * frames <= |pcm| && i < frames
    ensures Normalize(pcm, 2, frames)[2 * i] * Int16Max as real == pcm[2 * i] as real
    ensures Normalize(pcm, 2, frames)[2 * i + 1] * Int16Max as real == pcm[2 * i + 1] as real
  {
    NormalizeFrame(pcm, 2, frames, i);
  }
}
