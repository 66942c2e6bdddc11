/** Properties of the mix pass: how far each cursor moves, when a channel
    finishes and falls silent, and what reaches the device. */
module MixLaws {
  import opened Pcm
  import opened AudioAsset
  import opened AudioChannel
  import opened Mixing

  /** How many of the first `m` slots hold channel `ch`. */
  function Hits(s: seq<Channel?>, m: nat, ch: Channel): nat
    requires m <= |s|
  {
    if m == 0 then 0 else Hits(s, m - 1, ch) + (if s[m - 1] == ch then 1 else 0)
  }

  lemma {:induction false} HitsNone(s: seq<Channel?>, m: nat, ch: Channel)
    requires m <= |s| && forall k :: 0 <= k < m ==> s[k] != ch
    ensures Hits(s, m, ch) == 0
  {
    if m > 0 {
      HitsNone(s, m - 1, ch);
    }
  }

  /** A channel held by slot `c` alone is counted once among any prefix
      longer than `c`. */
  lemma {:induction false} HitsSole(s: seq<Channel?>, m: nat, c: nat)
    requires m <= |s| && c < |s| && s[c] != null
    requires forall k :: 0 <= k < |s| && k != c ==> s[k] != s[c]
    ensures Hits(s, m, s[c]) == if m > c then 1 else 0
  {
    if m > 0 {
      HitsSole(s, m - 1, c);
    }
  }

  /** A channel held by exactly the two slots `a` and `b` is counted twice. */
  lemma {:induction false} HitsShared(s: seq<Channel?>, m: nat, a: nat, b: nat)
    requires m <= |s| && a < b < |s| && s[a] != null && s[b] == s[a]
    requires forall k :: 0 <= k < |s| && k != a && k != b ==> s[k] != s[a]
    ensures Hits(s, m, s[a]) == (if m > a then 1 else 0) + (if m > b then 1 else 0)
  {
    if m > 0 {
      HitsShared(s, m - 1, a, b);
    }
  }

  /** Visits compose: advancing by `x` then by `y` is advancing by `x + y`,
      for a cursor that is inside its asset while enabled. */
  lemma AdvanceByAdds(cur: Cursor, x: nat, y: nat, len: nat)
    requires cur.enabled ==> cur.position < len
    ensures AdvanceBy(AdvanceBy(cur, x, len), y, len) == AdvanceBy(cur, x + y, len)
  {
  }

  /** After the first `m` visits of a frame, the channel of slot `c` has been
      advanced once for every one of those slots that holds it. */
  lemma {:induction false} FramePrefixCursor(s: seq<Channel?>, st: seq<Cursor>, c: nat, m: nat)
    requires |s| == |st| && c < |s| && m <= |s| && s[c] != null
    requires Sound(s, st) && Consistent(s, st)
    ensures FramePrefix(s, st, m).cursors[c] == AdvanceBy(st[c], Hits(s, m, s[c]), s[c].asset.length)
  {
    if m > 0 {
      FramePrefixCursor(s, st, c, m - 1);
      FramePrefixKeeps(s, st, m - 1);
      var prev := FramePrefix(s, st, m - 1);
      if s[m - 1] == s[c] {
        assert prev.cursors[m - 1] == prev.cursors[c];
        AdvanceByAdds(st[c], Hits(s, m - 1, s[c]), 1, s[c].asset.length);
      }
    }
  }

  /** Cursor advance over a pass: after `n` frames, the channel of slot `c`
      has moved `n` times its number of slots, stopping disabled at the end
      of its asset; a disabled channel does not move. */
  lemma {:induction false} PassCursor(s: seq<Channel?>, st: seq<Cursor>, c: nat, n: nat)
    requires |s| == |st| && c < |s| && s[c] != null
    requires Sound(s, st) && Consistent(s, st)
    ensures Pass(s, st, n)[c] == AdvanceBy(st[c], n * Hits(s, |s|, s[c]), s[c].asset.length)
  {
    if n > 0 {
      var h := Hits(s, |s|, s[c]);
      PassCursor(s, st, c, n - 1);
      PassKeeps(s, st, n - 1);
      FramePrefixCursor(s, Pass(s, st, n - 1), c, |s|);
      AdvanceByAdds(st[c], (n - 1) * h, h, s[c].asset.length);
      assert (n - 1) * h + h == n * h;
    }
  }

  /** A channel in one slot, enabled at frame p of an asset of L frames, ends
      a pass of n frames at min(p + n, L), still enabled iff p + n < L. */
  lemma SoleSlotCursor(s: seq<Channel?>, st: seq<Cursor>, c: nat, n: nat)
    requires |s| == |st| && c < |s| && s[c] != null && st[c].enabled
    requires forall k :: 0 <= k < |s| && k != c ==> s[k] != s[c]
    requires Sound(s, st) && Consistent(s, st)
    ensures Pass(s, st, n)[c]
         == Cursor(Min(st[c].position + n, s[c].asset.length), st[c].position + n < s[c].asset.length)
  {
    HitsSole(s, |s|, c);
    PassCursor(s, st, c, n);
  }

  /** The same channel placed in two slots consumes two frames per output
      frame. */
  lemma SharedSlotsCursor(s: seq<Channel?>, st: seq<Cursor>, a: nat, b: nat, n: nat)
    requires |s| == |st| && a < b < |s| && s[a] != null && s[b] == s[a] && st[a].enabled
    requires forall k :: 0 <= k < |s| && k != a && k != b ==> s[k] != s[a]
    requires Sound(s, st) && Consistent(s, st)
    ensures Pass(s, st, n)[a]
         == Cursor(Min(st[a].position + 2 * n, s[a].asset.length), st[a].position + 2 * n < s[a].asset.length)
  {
    HitsShared(s, |s|, a, b);
    PassCursor(s, st, a, n);
  }

  lemma MulMonotone(i: nat, j: nat, h: nat)
    requires i <= j
    ensures i * h <= j * h
  {
    assert j * h == i * h + (j - i) * h;
  }

  /** A channel that is disabled at some frame of a pass stays where it is,
      disabled, for the rest of the pass. */
  lemma DisabledStaysDisabled(s: seq<Channel?>, st: seq<Cursor>, c: nat, i: nat, j: nat)
    requires |s| == |st| && c < |s| && i <= j
    requires Sound(s, st) && Consistent(s, st)
    requires !Pass(s, st, i)[c].enabled
    ensures Pass(s, st, j)[c] == Pass(s, st, i)[c]
  {
    if s[c] != null {
      var h := Hits(s, |s|, s[c]);
      PassCursor(s, st, c, i);
      PassCursor(s, st, c, j);
      MulMonotone(i, j, h);
      AdvanceByStuck(st[c], i * h, j * h, s[c].asset.length);
    } else {
      PassKeeps(s, st, i);
      PassKeeps(s, st, j);
    }
  }

  /** A cursor that has stopped stays stopped, however many more visits. */
  lemma AdvanceByStuck(cur: Cursor, x: nat, y: nat, len: nat)
    requires x <= y && (cur.enabled ==> cur.position < len)
    requires !AdvanceBy(cur, x, len).enabled
    ensures AdvanceBy(cur, y, len) == AdvanceBy(cur, x, len)
  {
  }

  /** A slot that is empty, or whose channel is disabled, contributes
      nothing in the first `m` visits of a frame. */
  lemma {:induction false} FramePrefixSilent(s: seq<Channel?>, st: seq<Cursor>, c: nat, m: nat)
    requires |s| == |st| && c < |s| && m <= |s|
    requires Sound(s, st) && Consistent(s, st)
    requires s[c] == null || !st[c].enabled
    ensures forall q :: q in FramePrefix(s, st, m).fetched ==> q.slot != c
  {
    if m > 0 {
      FramePrefixSilent(s, st, c, m - 1);
      if m - 1 == c && s[c] != null {
        FramePrefixCursor(s, st, c, m - 1);
      }
    }
  }

  /** Example: a fresh channel alone in its slot, on an asset of L > 0
      frames, is still playing after fewer than L frames, is finished after
      exactly L frames, and contributes nothing to any later frame even
      though it stays in its slot. */
  lemma DrainsAfterLength(s: seq<Channel?>, st: seq<Cursor>, c: nat)
    requires |s| == |st| && c < |s| && s[c] != null && 0 < s[c].asset.length
    requires st[c] == Cursor(0, true)
    requires forall k :: 0 <= k < |s| && k != c ==> s[k] != s[c]
    requires Sound(s, st) && Consistent(s, st)
    ensures forall n: nat :: n < s[c].asset.length ==> Pass(s, st, n)[c].enabled
    ensures Pass(s, st, s[c].asset.length)[c] == Cursor(s[c].asset.length, false)
    ensures forall n: nat, q :: s[c].asset.length <= n && q in FrameReads(s, st, n) ==> q.slot != c
  {
    var len := s[c].asset.length;
    forall n: nat | n < len
      ensures Pass(s, st, n)[c].enabled
    {
      SoleSlotCursor(s, st, c, n);
    }
    SoleSlotCursor(s, st, c, len);
    forall n: nat, q | len <= n && q in FrameReads(s, st, n)
      ensures q.slot != c
    {
      DisabledStaysDisabled(s, st, c, len, n);
      PassKeeps(s, st, n);
      FramePrefixSilent(s, Pass(s, st, n), c, |s|);
    }
  }

  /** When slot `c` holds the only enabled channel, the first `m` visits
      read exactly its current frame once slot `c` has been visited. */
  lemma {:induction false} FramePrefixSole(s: seq<Channel?>, st: seq<Cursor>, c: nat, m: nat)
    requires |s| == |st| && c < |s| && m <= |s| && s[c] != null && st[c].enabled
    requires forall k :: 0 <= k < |s| && k != c && s[k] != null ==> !st[k].enabled
    requires Sound(s, st) && Consistent(s, st)
    ensures FramePrefix(s, st, m).fetched
         == if m > c then [Read(c, s[c].asset, st[c].position)] else []
  {
    if m > 0 {
      FramePrefixSole(s, st, c, m - 1);
      var k := m - 1;
      var prev := FramePrefix(s, st, k);
      assert FramePrefix(s, st, m).fetched == prev.fetched + SlotReads(s, prev.cursors, k);
      if k == c {
        HitsNone(s, c, s[c]);
        FramePrefixCursor(s, st, c, c);
        assert SlotReads(s, prev.cursors, k) == [Read(c, s[c].asset, st[c].position)];
      } else if s[k] != null {
        FramePrefixCursor(s, st, k, k);
        assert SlotReads(s, prev.cursors, k) == [];
      }
    }
  }

  /** Clipping rule, lone-channel case: when one channel plays, the frame
      reads just its current asset frame and the device gets that sample
      scaled by INT16_MAX, with no soft clip. */
  lemma SoleChannelFrame(lib: Library, tanh: real -> real, s: seq<Channel?>, st: seq<Cursor>, c: nat, side: nat)
    requires |s| == |st| && c < |s| && s[c] != null && st[c].enabled && side < 2
    requires forall k :: 0 <= k < |s| && k != c && s[k] != null ==> !st[k].enabled
    requires Sound(s, st) && Consistent(s, st) && Covers(lib, s)
    ensures Frame(s, st).fetched == [Read(c, s[c].asset, st[c].position)]
    ensures 2 * st[c].position + side < |lib[s[c].asset]|
    ensures MixedSample(lib, tanh, Frame(s, st).fetched, side)
         == Quantize(lib[s[c].asset][2 * st[c].position + side])
  {
    FramePrefixSole(s, st, c, |s|);
    var rs := Frame(s, st).fetched;
    var q := Read(c, s[c].asset, st[c].position);
    assert rs == [q];
    assert rs[..0] == [];
    assert SideSum(lib, rs, side) == 0.0 + lib[q.asset][2 * q.position + side];
  }

  /** Converting a sample of normalised data back to 16 bits gives the
      source sample it was built from. */
  lemma ConvertedSampleIsSource(samples: seq<real>, pcm: seq<Int16>, ch: nat, frames: nat, p: nat)
    requires ch >= 1 && frames * ch <= |pcm| && p < frames
    requires samples == Normalize(pcm, ch, frames)
    ensures p * ch < |pcm| && RightIndex(p, ch) < |pcm| && 2 * p + 1 < |samples|
    ensures Quantize(samples[2 * p]) == pcm[p * ch]
    ensures Quantize(samples[2 * p + 1]) == pcm[RightIndex(p, ch)]
  {
    NormalizeFrame(pcm, ch, frames, p);
    QuantizeScale(pcm[p * ch]);
    QuantizeScale(pcm[RightIndex(p, ch)]);
  }

  /** A lone channel whose asset was loaded from `pcm` hands the device the
      source's own 16-bit samples: mono duplicated, stereo unchanged. */
  lemma SoleChannelReproducesSource(lib: Library, tanh: real -> real, s: seq<Channel?>, st: seq<Cursor>,
                                    c: nat, pcm: seq<Int16>, ch: nat)
    requires |s| == |st| && c < |s| && s[c] != null && st[c].enabled
    requires forall k :: 0 <= k < |s| && k != c && s[k] != null ==> !st[k].enabled
    requires Sound(s, st) && Consistent(s, st) && Covers(lib, s)
    requires ch >= 1 && s[c].asset.length * ch <= |pcm|
    requires lib[s[c].asset] == Normalize(pcm, ch, s[c].asset.length)
    ensures InBounds(lib, Frame(s, st).fetched)
    ensures st[c].position * ch < |pcm| && RightIndex(st[c].position, ch) < |pcm|
    ensures MixedSample(lib, tanh, Frame(s, st).fetched, 0) == pcm[st[c].position * ch]
    ensures MixedSample(lib, tanh, Frame(s, st).fetched, 1) == pcm[RightIndex(st[c].position, ch)]
  {
    SoleChannelFrame(lib, tanh, s, st, c, 0);
    SoleChannelFrame(lib, tanh, s, st, c, 1);
    ConvertedSampleIsSource(lib[s[c].asset], pcm, ch, s[c].asset.length, st[c].position);
  }
  /** A channel held by slot `c` alone and enabled is read, at its current
      frame, by every frame prefix that has visited slot `c`. */
  lemma {:induction false} FramePrefixHasSole(s: seq<Channel?>, st: seq<Cursor>, c: nat, m: nat)
    requires |s| == |st| && c < m <= |s| && s[c] != null && st[c].enabled
    requires forall k :: 0 <= k < |s| && k != c ==> s[k] != s[c]
    requires Sound(s, st) && Consistent(s, st)
    ensures Read(c, s[c].asset, st[c].position) in FramePrefix(s, st, m).fetched
  {
    var k := m - 1;
    var prev := FramePrefix(s, st, k);
    assert FramePrefix(s, st, m).fetched == prev.fetched + SlotReads(s, prev.cursors, k);
    if k == c {
      HitsSole(s, c, c);
      FramePrefixCursor(s, st, c, c);
      assert SlotReads(s, prev.cursors, k) == [Read(c, s[c].asset, st[c].position)];
    } else {
      FramePrefixHasSole(s, st, c, k);
    }
  }

  /** Clipping rule, shared case: when two slots hold two different enabled
      channels, each in one slot only, the frame sums at least two
      contributions and the soft clip is applied to both sides. */
  lemma SharedFrameClipped(lib: Library, tanh: real -> real, s: seq<Channel?>, st: seq<Cursor>,
                           a: nat, b: nat, side: nat)
    requires |s| == |st| && a < |s| && b < |s| && a != b && side < 2
    requires s[a] != null && s[b] != null && st[a].enabled && st[b].enabled
    requires forall k :: 0 <= k < |s| && k != a ==> s[k] != s[a]
    requires forall k :: 0 <= k < |s| && k != b ==> s[k] != s[b]
    requires Sound(s, st) && Consistent(s, st) && Covers(lib, s)
    ensures InBounds(lib, Frame(s, st).fetched)
    ensures |Frame(s, st).fetched| >= 2
    ensures MixedSample(lib, tanh, Frame(s, st).fetched, side)
         == Quantize(tanh(SideSum(lib, Frame(s, st).fetched, side)))
  {
    FrameReadsInBounds(lib, s, st);
    var rs := Frame(s, st).fetched;
    var qa, qb := Read(a, s[a].asset, st[a].position), Read(b, s[b].asset, st[b].position);
    FramePrefixHasSole(s, st, a, |s|);
    FramePrefixHasSole(s, st, b, |s|);
    assert qa in rs && qb in rs && qa != qb;
  }

  /** Every sample in the library lies in the normalised range. */
  predicate NormalisedLibrary(lib: Library) {
    forall a, k :: a in lib && 0 <= k < |lib[a]| ==> Normalised(lib[a][k])
  }

  /** The soft clip maps into [-1, 1] (as tanh does). */
  ghost predicate BoundedClip(tanh: real -> real) {
    forall x :: -1.0 <= tanh(x) <= 1.0
  }

  /** One side of one frame converts to a 16-bit sample: with two or more
      contributors the soft clip bounds it, with one the sample itself is
      normalised, with none it is silence. */
  lemma MixedSampleFits(lib: Library, tanh: real -> real, rs: seq<Read>, side: nat)
    requires side < 2 && InBounds(lib, rs) && NormalisedLibrary(lib) && BoundedClip(tanh)
    ensures InInt16(MixedSample(lib, tanh, rs, side))
  {
    var sum := SideSum(lib, rs, side);
    if |rs| > 1 {
      QuantizeFits(tanh(sum));
    } else if |rs| == 1 {
      var q := rs[0];
      assert q in rs && rs[..|rs| - 1] == [];
      assert SideSum(lib, [], side) == 0.0;
      assert sum == 0.0 + lib[q.asset][2 * q.position + side];
      assert Normalised(lib[q.asset][2 * q.position + side]);
      QuantizeFits(sum);
    } else {
      QuantizeFits(0.0);
    }
  }

  /** With normalised assets and a soft clip into [-1, 1], every sample a
      pass writes fits the device's signed 16-bit format. */
  lemma {:induction false} OutputFitsInt16(s: seq<Channel?>, st: seq<Cursor>, lib: Library, tanh: real -> real, n: nat)
    requires |s| == |st| && Sound(s, st) && Covers(lib, s)
    requires NormalisedLibrary(lib) && BoundedClip(tanh)
    ensures forall k :: 0 <= k < 2 * n ==> InInt16(PassOutput(s, st, lib, tanh, n)[k])
  {
    if n > 0 {
      OutputFitsInt16(s, st, lib, tanh, n - 1);
      var rs := FrameReads(s, st, n - 1);
      PassKeeps(s, st, n - 1);
      FrameReadsInBounds(lib, s, Pass(s, st, n - 1));
      MixedSampleFits(lib, tanh, rs, 0);
      MixedSampleFits(lib, tanh, rs, 1);
      var prev := PassOutput(s, st, lib, tanh, n - 1);
      var out := PassOutput(s, st, lib, tanh, n);
      assert out == prev + [MixedSample(lib, tanh, rs, 0), MixedSample(lib, tanh, rs, 1)];
      forall k | 0 <= k < 2 * n
        ensures InInt16(out[k])
      {
        if k < 2 * (n - 1) {
          assert out[k] == prev[k];
        }
      }
    }
  }
}
