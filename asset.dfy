/** A loaded sound: decoded 16-bit PCM converted once into a uniform
    interleaved stereo buffer of normalised samples, shared by any number of
    channels until it is unloaded. */
module AudioAsset {
  import opened Pcm

  /** Longest name kept: the source copies the path into a 256-byte field
      with its terminating zero. */
  const NameCapacity: nat := 255

  function Min(a: nat, b: nat): nat {
    if a < b then a else b
  }

  /** Convert frame `i` of the decoded data into `b`: its first channel on
      the left, and on the right the same sample for mono data or the second
      channel otherwise. */
  method ConvertFrame(b: array<real>, pcm: seq<Int16>, ch: nat, frames: nat, i: nat)
    requires ch >= 1 && frames * ch <= |pcm| && i < frames && b.Length == 2 * frames
    requires b[..2 * i] == Normalize(pcm, ch, i)
    modifies b
    ensures b[..2 * (i + 1)] == Normalize(pcm, ch, i + 1)
  {
    FrameIndexInRange(i, ch, frames, |pcm|);
    NormalizeNext(pcm, ch, frames, i);
    var src := i * ch;
    b[2 * i] := Scale(pcm[src]);
    if ch == 1 {
      b[2 * i + 1] := Scale(pcm[src]);
    } else {
      b[2 * i + 1] := Scale(pcm[src + 1]);
    }
    assert b[..2 * (i + 1)] == b[..2 * i] + [b[2 * i], b[2 * i + 1]];
  }

  class Asset {
    /** Diagnostic name: the path, cut to its first NameCapacity
        elements (the source cuts at 255 bytes of the C string). */
    const name: string
    /** Number of stereo frames (not of decoded samples). */
    const length: nat
    /** Channel count of the decoded source data. */
    const sourceChannels: nat
    /** Interleaved left/right samples; null once unloaded. */
    var buffer: array?<real>

    /** The buffer is present and holds exactly `length` stereo frames. */
    ghost predicate Loaded()
      reads this
    {
      buffer != null && buffer.Length == 2 * length
    }

    /** Load from the decoder's output: `wavBytes` bytes of 16-bit samples in
        `pcm`, with `sourceChannels` interleaved channels. */
    constructor Load(path: string, wavBytes: nat, sourceChannels: nat, pcm: seq<Int16>)
      requires 1 <= sourceChannels
      requires |pcm| == wavBytes / 2
      ensures name == path[..Min(|path|, NameCapacity)]
      ensures this.sourceChannels == sourceChannels
      ensures length == wavBytes / (2 * sourceChannels)
      ensures Loaded() && fresh(buffer)
      ensures buffer[..] == Normalize(pcm, sourceChannels, length)
    {
      var frames := wavBytes / (2 * sourceChannels);
      FramesFit(wavBytes, sourceChannels);
      var b := new real[OutputChannels * frames];
      var i := 0;
      while i < frames
        invariant 0 <= i <= frames
        invariant b[..2 * i] == Normalize(pcm, sourceChannels, i)
      {
        ConvertFrame(b, pcm, sourceChannels, frames, i);
        i := i + 1;
      }
      assert b[..] == b[..2 * frames];
      name := path[..Min(|path|, NameCapacity)];
      length := frames;
      this.sourceChannels := sourceChannels;
      buffer := b;
    }

    /** Release the sample buffer.  The buffer is null afterwards, so a
        second call finds nothing to release and changes nothing. */
    method Unload()
      modifies this
      ensures buffer == null
      ensures old(buffer) == null ==> unchanged(this)
    {
      if buffer != null {
        buffer := null;
      }
    }
  }
}
