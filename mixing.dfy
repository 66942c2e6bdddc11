/** The mix pass as values: what one pass does to the cursors of the channels
    in the 8 slots, which asset frames it reads, and which device samples it
    produces.  Slots are compared by channel identity, so a channel placed in
    two slots is advanced by both, as in the source. */
module Mixing {
  import opened Pcm
  import opened AudioAsset
  import opened AudioChannel

  /** Capacity of the slot bank. */
  const ChannelMax: nat := 8

  /** Frames the device buffer holds, and so the most one pass produces. */
  const TotalFrames: nat := 2048

  /** Bytes cleared in the scratch buffer before a pass: one device buffer. */
  const ClearedBytes: nat := TotalFrames * BytesPerFrame

  /** Bytes allocated for the scratch buffer (twice what a pass can use). */
  const OutputBufferBytes: nat := TotalFrames * OutputChannels * BytesPerFrame

  /** Uint32 arithmetic, used for the byte count handed to the device. */
  const Uint32Modulus: nat := 0x1_0000_0000

  /** The playback state of one slot's channel. */
  datatype Cursor = Cursor(position: nat, enabled: bool)

  /** One asset frame read during a pass: by the channel in `slot`, from
      `asset`, at frame `position`. */
  datatype Read = Read(slot: nat, asset: Asset, position: nat)

  /** The cursors and the reads so far in a frame. */
  datatype FrameState = FrameState(cursors: seq<Cursor>, fetched: seq<Read>)

  /** Decoded samples of each asset, as the mixer reads them. */
  type Library = map<Asset, seq<real>>

  /** Every enabled cursor points inside its asset. */
  predicate Sound(s: seq<Channel?>, st: seq<Cursor>)
    requires |s| == |st|
  {
    forall k :: 0 <= k < |s| && s[k] != null && st[k].enabled ==> st[k].position < s[k].asset.length
  }

  /** Slots holding the same channel show the same cursor (as any snapshot of
      the heap does). */
  predicate Consistent(s: seq<Channel?>, st: seq<Cursor>)
    requires |s| == |st|
  {
    forall j, k :: 0 <= j < |s| && 0 <= k < |s| && s[j] != null && s[j] == s[k] ==> st[j] == st[k]
  }

  /** The per-visit rule of the source: consume one frame, then stay
      enabled only while frames remain. */
  function Advance(cur: Cursor, len: nat): Cursor {
    Cursor(cur.position + 1, cur.position + 1 < len)
  }

  /** The cursor after `hits` visits by an enabled-only mixer: it moves by
      `hits` frames but stops, disabled, at the end of the asset. */
  function AdvanceBy(cur: Cursor, hits: nat, len: nat): Cursor {
    if !cur.enabled then cur
    else Cursor(Min(cur.position + hits, len), cur.position + hits < len)
  }

  /** The mixer's visit to slot `c`: an occupied, enabled slot advances its
      channel, which every slot holding that channel then shows. */
  function StepSlot(s: seq<Channel?>, st: seq<Cursor>, c: nat): (r: seq<Cursor>)
    requires |s| == |st| && c < |s|
    ensures |r| == |s|
  {
    if s[c] != null && st[c].enabled then
      var next := Advance(st[c], s[c].asset.length);
      seq(|s|, k requires 0 <= k < |s| => if s[k] == s[c] then next else st[k])
    else st
  }

  /** A visit leaves empty slots alone, keeps enabled cursors inside their
      assets, and keeps slots of one channel in agreement. */
  lemma StepSlotKeeps(s: seq<Channel?>, st: seq<Cursor>, c: nat)
    requires |s| == |st| && c < |s|
    ensures forall k :: 0 <= k < |s| && s[k] == null ==> StepSlot(s, st, c)[k] == st[k]
    ensures Sound(s, st) ==> Sound(s, StepSlot(s, st, c))
    ensures Consistent(s, st) ==> Consistent(s, StepSlot(s, st, c))
  {
  }

  /** Every enabled cursor plays an asset in `loaded`. */
  predicate Live(s: seq<Channel?>, st: seq<Cursor>, loaded: set<Asset>)
    requires |s| == |st|
  {
    forall k :: 0 <= k < |s| && s[k] != null && st[k].enabled ==> s[k].asset in loaded
  }

  /** A slot visit only disables a cursor or moves an enabled one, so every
      enabled cursor still plays an asset in `loaded`. */
  lemma StepSlotLive(s: seq<Channel?>, st: seq<Cursor>, c: nat, loaded: set<Asset>)
    requires |s| == |st| && c < |s| && Live(s, st, loaded)
    ensures Live(s, StepSlot(s, st, c), loaded)
  {
  }

  /** The asset frame slot `c` contributes, if it is occupied and enabled. */
  function SlotReads(s: seq<Channel?>, st: seq<Cursor>, c: nat): seq<Read>
    requires |s| == |st| && c < |s|
  {
    if s[c] != null && st[c].enabled then [Read(c, s[c].asset, st[c].position)] else []
  }

  /** The first `m` slot visits of one frame. */
  function FramePrefix(s: seq<Channel?>, st: seq<Cursor>, m: nat): (r: FrameState)
    requires |s| == |st| && m <= |s|
    ensures |r.cursors| == |s| && |r.fetched| <= m
  {
    if m == 0 then FrameState(st, [])
    else
      var prev := FramePrefix(s, st, m - 1);
      FrameState(StepSlot(s, prev.cursors, m - 1), prev.fetched + SlotReads(s, prev.cursors, m - 1))
  }

  /** The visits of a frame prefix keep empty slots, soundness and
      agreement. */
  lemma {:induction false} FramePrefixKeeps(s: seq<Channel?>, st: seq<Cursor>, m: nat)
    requires |s| == |st| && m <= |s|
    ensures forall k :: 0 <= k < |s| && s[k] == null ==> FramePrefix(s, st, m).cursors[k] == st[k]
    ensures Sound(s, st) ==> Sound(s, FramePrefix(s, st, m).cursors)
    ensures Consistent(s, st) ==> Consistent(s, FramePrefix(s, st, m).cursors)
  {
    if m > 0 {
      FramePrefixKeeps(s, st, m - 1);
      StepSlotKeeps(s, FramePrefix(s, st, m - 1).cursors, m - 1);
    }
  }

  /** Every read of a frame prefix comes from an occupied slot already
      visited and, when the cursors start sound, lies inside its asset. */
  lemma {:induction false} FramePrefixReads(s: seq<Channel?>, st: seq<Cursor>, m: nat)
    requires |s| == |st| && m <= |s|
    ensures forall q :: q in FramePrefix(s, st, m).fetched ==>
              q.slot < m && s[q.slot] != null && q.asset == s[q.slot].asset
    ensures Sound(s, st) ==> forall q :: q in FramePrefix(s, st, m).fetched ==> q.position < q.asset.length
  {
    if m > 0 {
      FramePrefixReads(s, st, m - 1);
      FramePrefixKeeps(s, st, m - 1);
      var prev := FramePrefix(s, st, m - 1);
      assert FramePrefix(s, st, m).fetched == prev.fetched + SlotReads(s, prev.cursors, m - 1);
    }
  }

  /** One output frame: every slot visited once, in slot order. */
  function Frame(s: seq<Channel?>, st: seq<Cursor>): FrameState
    requires |s| == |st|
  {
    FramePrefix(s, st, |s|)
  }

  /** The cursors after `n` output frames. */
  function Pass(s: seq<Channel?>, st: seq<Cursor>, n: nat): (r: seq<Cursor>)
    requires |s| == |st|
    ensures |r| == |s|
  {
    if n == 0 then st else Frame(s, Pass(s, st, n - 1)).cursors
  }

  /** A pass keeps empty slots, soundness and agreement. */
  lemma {:induction false} PassKeeps(s: seq<Channel?>, st: seq<Cursor>, n: nat)
    requires |s| == |st|
    ensures forall k :: 0 <= k < |s| && s[k] == null ==> Pass(s, st, n)[k] == st[k]
    ensures Sound(s, st) ==> Sound(s, Pass(s, st, n))
    ensures Consistent(s, st) ==> Consistent(s, Pass(s, st, n))
  {
    if n > 0 {
      PassKeeps(s, st, n - 1);
      FramePrefixKeeps(s, Pass(s, st, n - 1), |s|);
    }
  }

  /** A frame started from sound cursors leaves them sound. */
  lemma FrameSound(s: seq<Channel?>, st: seq<Cursor>)
    requires |s| == |st| && Sound(s, st)
    ensures Sound(s, Frame(s, st).cursors)
  {
    FramePrefixKeeps(s, st, |s|);
  }

  /** A pass leaves the cursors of empty slots alone. */
  lemma PassKeepsEmpty(s: seq<Channel?>, st: seq<Cursor>, n: nat)
    requires |s| == |st|
    ensures forall k :: 0 <= k < |s| && s[k] == null ==> Pass(s, st, n)[k] == st[k]
  {
    PassKeeps(s, st, n);
  }

  /** One more frame extends a pass by that frame. */
  lemma PassNext(s: seq<Channel?>, st: seq<Cursor>, n: nat)
    requires |s| == |st|
    ensures Pass(s, st, n + 1) == Frame(s, Pass(s, st, n)).cursors
  {
  }

  /** The reads of output frame `i` of a pass. */
  function FrameReads(s: seq<Channel?>, st: seq<Cursor>, i: nat): seq<Read>
    requires |s| == |st|
  {
    Frame(s, Pass(s, st, i)).fetched
  }

  /** The library holds every occupied slot's asset, two samples per frame. */
  predicate Covers(lib: Library, s: seq<Channel?>) {
    forall k :: 0 <= k < |s| && s[k] != null ==>
      s[k].asset in lib && |lib[s[k].asset]| == 2 * s[k].asset.length
  }

  predicate InBounds(lib: Library, rs: seq<Read>) {
    forall q :: q in rs ==> q.asset in lib && 2 * q.position + 1 < |lib[q.asset]|
  }

  /** The sum of one side (0 left, 1 right) over the frames read. */
  function SideSum(lib: Library, rs: seq<Read>, side: nat): real
    requires side < 2 && InBounds(lib, rs)
  {
    if rs == [] then 0.0
    else
      var q := rs[|rs| - 1];
      SideSum(lib, rs[..|rs| - 1], side) + lib[q.asset][2 * q.position + side]
  }

  /** The soft-clip policy: the nonlinearity is applied only when more than
      one channel contributed to the frame. */
  function SoftClip(tanh: real -> real, contributors: nat, x: real): real {
    if contributors > 1 then tanh(x) else x
  }

  /** The device sample for one side of a frame with reads `rs`. */
  function MixedSample(lib: Library, tanh: real -> real, rs: seq<Read>, side: nat): int
    requires side < 2 && InBounds(lib, rs)
  {
    Quantize(SoftClip(tanh, |rs|, SideSum(lib, rs, side)))
  }

  /** One more slot visit extends a frame prefix by that visit. */
  lemma FramePrefixNext(s: seq<Channel?>, st: seq<Cursor>, c: nat)
    requires |s| == |st| && c < |s|
    ensures FramePrefix(s, st, c + 1)
         == FrameState(StepSlot(s, FramePrefix(s, st, c).cursors, c),
                       FramePrefix(s, st, c).fetched + SlotReads(s, FramePrefix(s, st, c).cursors, c))
  {
  }

  /** Sums over the reads so far grow by the next read's sample. */
  lemma SideSumAppend(lib: Library, rs: seq<Read>, q: Read)
    requires InBounds(lib, rs + [q])
    ensures InBounds(lib, rs)
    ensures SideSum(lib, rs + [q], 0) == SideSum(lib, rs, 0) + lib[q.asset][2 * q.position]
    ensures SideSum(lib, rs + [q], 1) == SideSum(lib, rs, 1) + lib[q.asset][2 * q.position + 1]
  {
    assert (rs + [q])[..|rs|] == rs;
  }

  /** A read of a frame inside its asset keeps the reads in bounds. */
  lemma InBoundsAppend(lib: Library, rs: seq<Read>, q: Read)
    requires InBounds(lib, rs) && q.asset in lib && 2 * q.position + 1 < |lib[q.asset]|
    ensures InBounds(lib, rs + [q])
  {
  }

  /** Visiting slot `c` adds its frame to the reads, and so to both sums,
      exactly when it holds an enabled channel; the reads stay in bounds. */
  lemma {:induction false} FramePrefixSums(lib: Library, s: seq<Channel?>, st: seq<Cursor>, c: nat)
    requires |s| == |st| && c < |s| && Covers(lib, s)
    requires Sound(s, FramePrefix(s, st, c).cursors) && InBounds(lib, FramePrefix(s, st, c).fetched)
    ensures InBounds(lib, FramePrefix(s, st, c + 1).fetched)
    ensures var prev := FramePrefix(s, st, c);
            var next := FramePrefix(s, st, c + 1);
            if s[c] != null && prev.cursors[c].enabled then
              |next.fetched| == |prev.fetched| + 1
              && SideSum(lib, next.fetched, 0)
                 == SideSum(lib, prev.fetched, 0) + lib[s[c].asset][2 * prev.cursors[c].position]
              && SideSum(lib, next.fetched, 1)
                 == SideSum(lib, prev.fetched, 1) + lib[s[c].asset][2 * prev.cursors[c].position + 1]
            else next.fetched == prev.fetched
  {
    var prev := FramePrefix(s, st, c);
    FramePrefixNext(s, st, c);
    if s[c] != null && prev.cursors[c].enabled {
      ReadInLibrary(lib, s, prev.cursors, c);
      ReadAppended(lib, prev.fetched, FramePrefix(s, st, c + 1).fetched, Read(c, s[c].asset, prev.cursors[c].position));
    } else {
      assert SlotReads(s, prev.cursors, c) == [];
      assert prev.fetched + [] == prev.fetched;
    }
  }

  /** Reads extended by one read inside its asset stay in bounds, and each
      side's sum grows by that read's sample. */
  lemma ReadAppended(lib: Library, rs: seq<Read>, next: seq<Read>, q: Read)
    requires InBounds(lib, rs) && q.asset in lib && 2 * q.position + 1 < |lib[q.asset]|
    requires next == rs + [q]
    ensures InBounds(lib, next) && |next| == |rs| + 1
    ensures SideSum(lib, next, 0) == SideSum(lib, rs, 0) + lib[q.asset][2 * q.position]
    ensures SideSum(lib, next, 1) == SideSum(lib, rs, 1) + lib[q.asset][2 * q.position + 1]
  {
    InBoundsAppend(lib, rs, q);
    SideSumAppend(lib, rs, q);
  }

  /** The slot loop's running state after the first `c` visits of a frame
      from cursors `st`: the cursors stay sound and play assets in `loaded`,
      and the sums and the count cover the reads so far. */
  predicate Summed(lib: Library, loaded: set<Asset>, s: seq<Channel?>, st: seq<Cursor>, c: nat,
                   left: real, right: real, contributors: nat)
    requires |s| == |st| && c <= |s|
  {
    var fs := FramePrefix(s, st, c);
    Sound(s, fs.cursors) && Live(s, fs.cursors, loaded) && InBounds(lib, fs.fetched)
    && contributors == |fs.fetched|
    && left == SideSum(lib, fs.fetched, 0) && right == SideSum(lib, fs.fetched, 1)
  }

  /** One visit of the slot loop: adding the frame the visit plays, if its
      slot is occupied and enabled, gives the running state of one more
      visit. */
  lemma {:induction false} SummedNext(lib: Library, loaded: set<Asset>, s: seq<Channel?>, st: seq<Cursor>, c: nat,
                   left: real, right: real, contributors: nat)
    requires |s| == |st| && c < |s| && Covers(lib, s)
    requires Summed(lib, loaded, s, st, c, left, right, contributors)
    ensures var cur := FramePrefix(s, st, c).cursors;
            if s[c] != null && cur[c].enabled then
              s[c].asset in lib && 2 * cur[c].position + 1 < |lib[s[c].asset]|
              && Summed(lib, loaded, s, st, c + 1, left + lib[s[c].asset][2 * cur[c].position],
                        right + lib[s[c].asset][2 * cur[c].position + 1], contributors + 1)
            else
              Summed(lib, loaded, s, st, c + 1, left, right, contributors)
  {
    var fs := FramePrefix(s, st, c);
    FramePrefixNext(s, st, c);
    StepSlotKeeps(s, fs.cursors, c);
    StepSlotLive(s, fs.cursors, c, loaded);
    FramePrefixSums(lib, s, st, c);
    if s[c] != null && fs.cursors[c].enabled {
      ReadInLibrary(lib, s, fs.cursors, c);
    }
  }

  /** The frame an occupied, enabled, sound slot reads is in the library. */
  lemma ReadInLibrary(lib: Library, s: seq<Channel?>, st: seq<Cursor>, c: nat)
    requires |s| == |st| && c < |s| && Sound(s, st) && Covers(lib, s)
    requires s[c] != null && st[c].enabled
    ensures s[c].asset in lib && 2 * st[c].position + 1 < |lib[s[c].asset]|
  {
  }

  /** Reads of a frame that starts from sound cursors stay inside the library. */
  lemma FrameReadsInBounds(lib: Library, s: seq<Channel?>, st: seq<Cursor>)
    requires |s| == |st| && Sound(s, st) && Covers(lib, s)
    ensures InBounds(lib, Frame(s, st).fetched)
  {
    var rs := Frame(s, st).fetched;
    FramePrefixReads(s, st, |s|);
    forall q | q in rs
      ensures q.asset in lib && 2 * q.position + 1 < |lib[q.asset]|
    {
      assert s[q.slot] != null && q.asset == s[q.slot].asset;
    }
  }

  /** The interleaved device samples of the first `n` frames of a pass.
      A pass of no frames reads nothing, so only a pass that mixes frames
      needs sound cursors. */
  function PassOutput(s: seq<Channel?>, st: seq<Cursor>, lib: Library, tanh: real -> real, n: nat): (r: seq<int>)
    requires |s| == |st| && Covers(lib, s) && (n > 0 ==> Sound(s, st))
    ensures |r| == 2 * n
  {
    if n == 0 then []
    else
      var rs := FrameReads(s, st, n - 1);
      PassReadsInBounds(lib, s, st, n - 1);
      PassOutput(s, st, lib, tanh, n - 1) + [MixedSample(lib, tanh, rs, 0), MixedSample(lib, tanh, rs, 1)]
  }

  /** Every frame of a pass from sound cursors reads inside the library. */
  lemma PassReadsInBounds(lib: Library, s: seq<Channel?>, st: seq<Cursor>, n: nat)
    requires |s| == |st| && Sound(s, st) && Covers(lib, s)
    ensures InBounds(lib, FrameReads(s, st, n))
  {
    PassKeeps(s, st, n);
    FrameReadsInBounds(lib, s, Pass(s, st, n));
  }

  /** Device sample `k` of a pass: side `k % 2` of frame `k / 2`. */
  function PassSample(s: seq<Channel?>, st: seq<Cursor>, lib: Library, tanh: real -> real, k: nat): int
    requires |s| == |st| && Sound(s, st) && Covers(lib, s)
  {
    PassReadsInBounds(lib, s, st, k / 2);
    MixedSample(lib, tanh, FrameReads(s, st, k / 2), k % 2)
  }

  /** Samples 2i and 2i+1 of a pass are the two sides of frame i. */
  lemma PassSampleOfFrame(s: seq<Channel?>, st0: seq<Cursor>, lib: Library, tanh: real -> real, i: nat)
    requires |s| == |st0| && Sound(s, st0) && Covers(lib, s)
    ensures InBounds(lib, Frame(s, Pass(s, st0, i)).fetched)
    ensures PassSample(s, st0, lib, tanh, 2 * i) == MixedSample(lib, tanh, Frame(s, Pass(s, st0, i)).fetched, 0)
    ensures PassSample(s, st0, lib, tanh, 2 * i + 1) == MixedSample(lib, tanh, Frame(s, Pass(s, st0, i)).fetched, 1)
  {
    Halves(i);
    PassReadsInBounds(lib, s, st0, i);
  }

  lemma Halves(i: nat)
    ensures (2 * i) / 2 == i && (2 * i) % 2 == 0
    ensures (2 * i + 1) / 2 == i && (2 * i + 1) % 2 == 1
  {
  }

  /** Sample `k` of a pass's output is PassSample `k`. */
  lemma {:induction false} PassOutputAt(s: seq<Channel?>, st: seq<Cursor>, lib: Library, tanh: real -> real, n: nat, k: nat)
    requires |s| == |st| && Sound(s, st) && Covers(lib, s) && k < 2 * n
    ensures PassOutput(s, st, lib, tanh, n)[k] == PassSample(s, st, lib, tanh, k)
  {
    var i := n - 1;
    PassOutputNext(s, st, lib, tanh, i);
    var out := PassOutput(s, st, lib, tanh, n);
    if k < 2 * i {
      PassOutputAt(s, st, lib, tanh, i, k);
      assert out[k] == PassOutput(s, st, lib, tanh, i)[k];
    } else {
      PassSampleOfFrame(s, st, lib, tanh, i);
      if k == 2 * i {
        assert out[k] == MixedSample(lib, tanh, Frame(s, Pass(s, st, i)).fetched, 0);
      } else {
        assert out[k] == MixedSample(lib, tanh, Frame(s, Pass(s, st, i)).fetched, 1);
      }
    }
  }

  /** The output of a pass is, sample by sample, PassSample. */
  lemma PassOutputSamples(s: seq<Channel?>, st: seq<Cursor>, lib: Library, tanh: real -> real, n: nat)
    requires |s| == |st| && Sound(s, st) && Covers(lib, s)
    ensures forall k :: 0 <= k < 2 * n ==> PassOutput(s, st, lib, tanh, n)[k] == PassSample(s, st, lib, tanh, k)
  {
    forall k | 0 <= k < 2 * n
      ensures PassOutput(s, st, lib, tanh, n)[k] == PassSample(s, st, lib, tanh, k)
    {
      PassOutputAt(s, st, lib, tanh, n, k);
    }
  }

  /** One more frame appends that frame's two device samples. */
  lemma PassOutputNext(s: seq<Channel?>, st: seq<Cursor>, lib: Library, tanh: real -> real, n: nat)
    requires |s| == |st| && Sound(s, st) && Covers(lib, s)
    ensures Sound(s, Pass(s, st, n)) && InBounds(lib, Frame(s, Pass(s, st, n)).fetched)
    ensures PassOutput(s, st, lib, tanh, n + 1)
         == PassOutput(s, st, lib, tanh, n)
            + [MixedSample(lib, tanh, Frame(s, Pass(s, st, n)).fetched, 0),
               MixedSample(lib, tanh, Frame(s, Pass(s, st, n)).fetched, 1)]
  {
    PassKeeps(s, st, n);
    FrameReadsInBounds(lib, s, Pass(s, st, n));
  }

  // ----- Backpressure -----

  /** Frames produced by a pass: the device buffer minus the backlog, where
      the backlog is the queued byte count in whole frames.  The count lies
      in [0, 2048] exactly when the backlog does not exceed 2048 frames. */
  function FramesToWrite(queuedBytes: nat): (r: int)
    ensures r <= TotalFrames
    ensures 0 <= r <==> queuedBytes / BytesPerFrame <= TotalFrames
    ensures queuedBytes < BytesPerFrame ==> r == TotalFrames
  {
    TotalFrames - queuedBytes / BytesPerFrame
  }

  /** The byte count handed to the device: `framesToWrite * bytesPerSample`
      as a signed int, converted to the Uint32 length parameter. */
  function EnqueuedBytes(frames: int): (r: nat)
    ensures r < Uint32Modulus
    ensures 0 <= frames ==> r == frames * BytesPerFrame || frames * BytesPerFrame >= Uint32Modulus
  {
    (frames * BytesPerFrame) % Uint32Modulus
  }

  /** Within the caller's contract (backlog at most one device buffer) the
      pass hands over exactly the bytes it produced, all inside the cleared
      part of the scratch buffer. */
  lemma EnqueueWithinBuffer(queuedBytes: nat)
    requires queuedBytes / BytesPerFrame <= TotalFrames
    ensures 0 <= FramesToWrite(queuedBytes) <= TotalFrames
    ensures EnqueuedBytes(FramesToWrite(queuedBytes)) == FramesToWrite(queuedBytes) * BytesPerFrame <= ClearedBytes
  {
  }

  /** A backlog of more than one device buffer (but under 2^28 frames) makes
      the frame count negative: nothing is mixed, yet the wrapped byte count
      asks the device to take more bytes than the scratch buffer has. */
  lemma BacklogOverrun(queuedBytes: nat)
    requires TotalFrames < queuedBytes / BytesPerFrame <= 0x1000_0000
    ensures FramesToWrite(queuedBytes) < 0
    ensures EnqueuedBytes(FramesToWrite(queuedBytes)) > OutputBufferBytes
  {
    var f := FramesToWrite(queuedBytes);
    assert (f * BytesPerFrame) % Uint32Modulus == f * BytesPerFrame + Uint32Modulus;
  }
}
