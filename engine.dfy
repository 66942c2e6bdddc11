/** The mixer engine: a bank of 8 nullable channel slots and a reused
    scratch buffer of 16-bit samples.  Each tick the host hands over its
    list of channels, the engine re-admits them into the slots and runs one
    mix pass that produces exactly the frames the device is missing. */
module AudioEngine {
  import opened Pcm
  import opened AudioAsset
  import opened AudioChannel
  import opened Mixing
  import opened MixLaws

  /** The host's list length as the source stores it, in a uint8_t. */
  function ListCount(list: seq<Channel?>): (r: nat)
    ensures r <= |list| && r < 256
    ensures |list| < 256 ==> r == |list|
  {
    |list| % 256
  }

  /** Number of slots the host list reaches. */
  function AdmitBound(list: seq<Channel?>): (r: nat)
    ensures r <= ChannelMax && r <= |list|
  {
    Min(ListCount(list), ChannelMax)
  }

  /** The slots after the first `i` iterations of the re-admission loop:
      a slot within the list's reach takes a non-null entry and keeps its
      occupant for a null entry; a slot beyond it is cleared. */
  function AdmitPrefix(prev: seq<Channel?>, list: seq<Channel?>, i: nat): (r: seq<Channel?>)
    requires |prev| == ChannelMax && i <= ChannelMax
    ensures |r| == ChannelMax
    ensures forall k :: i <= k < ChannelMax ==> r[k] == prev[k]
    ensures forall k :: 0 <= k < i && AdmitBound(list) <= k ==> r[k] == null
    ensures forall k :: 0 <= k < i && k < AdmitBound(list) && list[k] != null ==> r[k] == list[k]
    ensures forall k :: 0 <= k < i && k < AdmitBound(list) && list[k] == null ==> r[k] == prev[k]
  {
    if i == 0 then prev
    else
      var r := AdmitPrefix(prev, list, i - 1);
      var k := i - 1;
      if k < ListCount(list) then
        if list[k] != null then r[k := list[k]] else r
      else
        r[k := null]
  }

  /** The slots after re-admission. */
  function Admit(prev: seq<Channel?>, list: seq<Channel?>): (r: seq<Channel?>)
    requires |prev| == ChannelMax
    ensures |r| == ChannelMax
    ensures forall k :: AdmitBound(list) <= k < ChannelMax ==> r[k] == null
    ensures forall k :: 0 <= k < AdmitBound(list) && list[k] != null ==> r[k] == list[k]
    ensures forall k :: 0 <= k < AdmitBound(list) && list[k] == null ==> r[k] == prev[k]
  {
    AdmitPrefix(prev, list, ChannelMax)
  }

  /** Re-admitting the same list twice changes nothing the second time. */
  lemma AdmitIdempotent(prev: seq<Channel?>, list: seq<Channel?>)
    requires |prev| == ChannelMax
    ensures Admit(Admit(prev, list), list) == Admit(prev, list)
  {
    var once := Admit(prev, list);
    var twice := Admit(once, list);
    forall k | 0 <= k < ChannelMax
      ensures twice[k] == once[k]
    {
    }
  }

  /** A list whose reachable entries are all non-null fixes every slot,
      whatever the slots held before. */
  lemma AdmitForgetsPrevious(prev: seq<Channel?>, other: seq<Channel?>, list: seq<Channel?>)
    requires |prev| == ChannelMax && |other| == ChannelMax
    requires forall k :: 0 <= k < AdmitBound(list) ==> list[k] != null
    ensures Admit(prev, list) == Admit(other, list)
  {
    var a, b := Admit(prev, list), Admit(other, list);
    forall k | 0 <= k < ChannelMax
      ensures a[k] == b[k]
    {
    }
  }

  /** Entries after the eighth do not matter while the list is shorter
      than 256 entries. */
  lemma AdmitIgnoresTail(prev: seq<Channel?>, list: seq<Channel?>, other: seq<Channel?>)
    requires |prev| == ChannelMax
    requires ChannelMax <= |list| < 256 && ChannelMax <= |other| < 256
    requires list[..ChannelMax] == other[..ChannelMax]
    ensures Admit(prev, list) == Admit(prev, other)
  {
    var a, b := Admit(prev, list), Admit(prev, other);
    forall k | 0 <= k < ChannelMax
      ensures a[k] == b[k]
    {
      assert list[k] == list[..ChannelMax][k];
      assert other[k] == other[..ChannelMax][k];
    }
  }

  /** The uint8_t truncation of the list length: a host list of 256
      entries clears every slot, as an empty list does. */
  lemma FullByteListClears(prev: seq<Channel?>, list: seq<Channel?>)
    requires |prev| == ChannelMax && |list| == 256
    ensures forall k :: 0 <= k < ChannelMax ==> Admit(prev, list)[k] == null
  {
    assert ListCount(list) == 0;
  }

  // ----- Views of the heap used by the engine's contracts -----

  ghost function Occupants(s: seq<Channel?>): set<Channel> {
    set c: Channel | c in s
  }

  ghost function AssetsOf(s: seq<Channel?>): set<Asset> {
    set c: Channel | c in s :: c.asset
  }

  ghost function BuffersOf(s: seq<Channel?>): set<array<real>>
    reads AssetsOf(s)
  {
    set a | a in AssetsOf(s) && a.buffer != null :: a.buffer
  }

  /** Stand-in samples of an unloaded asset: silence of the asset's length.
      The mixer never reads them, because only enabled channels are read and
      every enabled channel plays a loaded asset (`Live`). */
  function Silence(length: nat): seq<real> {
    seq(2 * length, _ => 0.0)
  }

  /** The samples of every asset played by the slots: a loaded asset's
      buffer, and silence for an asset that has been unloaded. */
  ghost function LibraryOf(s: seq<Channel?>): (lib: Library)
    reads AssetsOf(s), BuffersOf(s)
    ensures Covers(lib, s) && Holds(lib, LoadedOf(s))
  {
    var lib := map a | a in AssetsOf(s) :: if a.Loaded() then a.buffer[..] else Silence(a.length);
    assert forall k :: 0 <= k < |s| && s[k] != null ==> s[k].asset in AssetsOf(s);
    lib
  }

  /** The assets of the slots that are loaded. */
  ghost function LoadedOf(s: seq<Channel?>): set<Asset>
    reads AssetsOf(s)
  {
    set a | a in AssetsOf(s) && a.Loaded()
  }

  /** The assets in `loaded` are loaded, and their buffers hold what the
      library says. */
  ghost predicate Holds(lib: Library, loaded: set<Asset>)
    reads loaded, set a | a in loaded && a.buffer != null :: a.buffer
  {
    forall a :: a in loaded ==> a.Loaded() && a in lib && a.buffer[..] == lib[a]
  }

  /** The cursors of the channels in the slots; an empty slot shows a
      disabled cursor at 0. */
  ghost function Snapshot(s: seq<Channel?>): (r: seq<Cursor>)
    reads Occupants(s)
    ensures |r| == |s|
    ensures (forall c :: c in Occupants(s) && c.enabled ==> c.position < c.asset.length) ==> Sound(s, r)
  {
    seq(|s|, k requires 0 <= k < |s| reads Occupants(s) =>
      if s[k] == null then Cursor(0, false) else Cursor(s[k].position, s[k].enabled))
  }

  /** The slots' channels show the cursors `st`. */
  ghost predicate Matches(s: seq<Channel?>, st: seq<Cursor>)
    requires |s| == |st|
    reads Occupants(s)
  {
    forall k :: 0 <= k < |s| && s[k] != null ==> s[k].position == st[k].position && s[k].enabled == st[k].enabled
  }

  /** What the source leaves to its caller before a pass: every enabled
      channel plays a loaded asset and still has frames left.  A disabled
      channel is never read, so its asset may have been unloaded. */
  ghost predicate Playable(s: seq<Channel?>)
    reads Occupants(s), AssetsOf(s)
  {
    forall c :: c in Occupants(s) && c.enabled ==> c.asset.Loaded() && c.position < c.asset.length
  }

  /** The slots show the cursors of their own snapshot. */
  lemma MatchesSnapshot(s: seq<Channel?>)
    ensures Matches(s, Snapshot(s))
    ensures forall k :: 0 <= k < |s| && s[k] == null ==> Snapshot(s)[k] == Cursor(0, false)
  {
  }

  /** Slots holding the same channel show the same cursor. */
  lemma SnapshotConsistent(s: seq<Channel?>)
    ensures Consistent(s, Snapshot(s))
  {
  }

  /** Cursors that the slots show, with empty slots shown as a disabled
      cursor at 0, are the slots' snapshot. */
  lemma SnapshotOfMatches(s: seq<Channel?>, st: seq<Cursor>)
    requires |s| == |st| && Matches(s, st)
    requires forall k :: 0 <= k < |s| && s[k] == null ==> st[k] == Cursor(0, false)
    ensures Snapshot(s) == st
  {
  }

  /** Slots showing sound cursors whose enabled ones play loaded assets
      are playable. */
  lemma PlayableOfMatches(s: seq<Channel?>, st: seq<Cursor>, loaded: set<Asset>)
    requires |s| == |st| && Matches(s, st) && Sound(s, st) && Live(s, st, loaded)
    requires forall a :: a in loaded ==> a.Loaded()
    ensures Playable(s)
  {
    forall c | c in Occupants(s) && c.enabled
      ensures c.asset.Loaded() && c.position < c.asset.length
    {
      var k :| 0 <= k < |s| && s[k] == c;
    }
  }

  /** Slots the source may mix show their own snapshot, in which every
      enabled cursor lies inside a loaded asset. */
  lemma MixReady(s: seq<Channel?>)
    requires Playable(s)
    ensures |Snapshot(s)| == |s| && Matches(s, Snapshot(s)) && Sound(s, Snapshot(s))
    ensures Live(s, Snapshot(s), LoadedOf(s))
    ensures forall k :: 0 <= k < |s| && s[k] == null ==> Snapshot(s)[k] == Cursor(0, false)
  {
    MatchesSnapshot(s);
    forall k | 0 <= k < |s| && s[k] != null && Snapshot(s)[k].enabled
      ensures s[k].asset in LoadedOf(s)
    {
      assert s[k] in Occupants(s);
    }
  }

  /** The end of a pass: slots showing the pass's cursors, and a sequence
      that agrees with the pass sample by sample, are the pass's snapshot
      and output. */
  lemma PassCompleted(s: seq<Channel?>, st0: seq<Cursor>, lib: Library, loaded: set<Asset>, tanh: real -> real, n: nat,
                      out: seq<int>)
    requires |s| == |st0| && Sound(s, st0) && Covers(lib, s)
    requires forall k :: 0 <= k < |s| && s[k] == null ==> st0[k] == Cursor(0, false)
    requires Matches(s, Pass(s, st0, n)) && Sound(s, Pass(s, st0, n)) && Live(s, Pass(s, st0, n), loaded)
    requires forall a :: a in loaded ==> a.Loaded()
    requires |out| == 2 * n && forall k :: 0 <= k < 2 * n ==> out[k] == PassSample(s, st0, lib, tanh, k)
    ensures Snapshot(s) == Pass(s, st0, n)
    ensures Playable(s)
    ensures out == PassOutput(s, st0, lib, tanh, n)
  {
    PassOutputSamples(s, st0, lib, tanh, n);
    PassKeepsEmpty(s, st0, n);
    SnapshotOfMatches(s, Pass(s, st0, n));
    PlayableOfMatches(s, Pass(s, st0, n), loaded);
  }

  /** After a pass whose cursors the slots show (as Mix leaves them), a
      channel alone in its slot that started enabled at frame p of an asset
      of L frames reports finished exactly when p + n >= L, and rests at
      frame min(p + n, L). */
  lemma SoleChannelFinished(s: seq<Channel?>, st: seq<Cursor>, c: nat, n: nat)
    requires |s| == |st| && c < |s| && s[c] != null && st[c].enabled
    requires forall k :: 0 <= k < |s| && k != c ==> s[k] != s[c]
    requires Sound(s, st) && Consistent(s, st)
    requires Snapshot(s) == Pass(s, st, n)
    ensures s[c].IsFinished() <==> st[c].position + n >= s[c].asset.length
    ensures s[c].position == Min(st[c].position + n, s[c].asset.length)
  {
    SoleSlotCursor(s, st, c, n);
    assert Snapshot(s)[c] == Cursor(s[c].position, s[c].enabled);
  }

  /** Whether re-admission by `list`, as the source writes it, enables
      channel `c`: an admitted channel takes its requested flag, any other
      keeps its own. */
  ghost predicate EnabledOnAdmission(c: Channel, list: seq<Channel?>)
    reads c
  {
    if c in list[..AdmitBound(list)] then c.requestEnabled else c.enabled
  }

  /** The cursors the mix pass of a tick starts from, after re-admission
      as the source writes it. */
  ghost function AdmittedCursors(prev: seq<Channel?>, list: seq<Channel?>): (r: seq<Cursor>)
    requires |prev| == ChannelMax
    reads Occupants(Admit(prev, list))
    ensures |r| == ChannelMax && Consistent(Admit(prev, list), r)
  {
    var s := Admit(prev, list);
    seq(ChannelMax, k requires 0 <= k < ChannelMax reads Occupants(s) =>
      if s[k] == null then Cursor(0, false) else Cursor(s[k].position, EnabledOnAdmission(s[k], list)))
  }

  /** The caller's obligation for a tick that mixes frames: after
      re-admission as the source writes it, every enabled channel plays a
      loaded asset and has frames left. */
  ghost predicate AdmissionPlayable(prev: seq<Channel?>, list: seq<Channel?>)
    requires |prev| == ChannelMax
    reads Occupants(Admit(prev, list)), AssetsOf(Admit(prev, list))
  {
    forall c :: c in Occupants(Admit(prev, list)) && EnabledOnAdmission(c, list) ==>
      c.asset.Loaded() && c.position < c.asset.length
  }

  /** When a tick's obligation is met its starting cursors are sound, and
      every enabled one plays a loaded asset. */
  lemma AdmittedSound(prev: seq<Channel?>, list: seq<Channel?>)
    requires |prev| == ChannelMax
    ensures AdmissionPlayable(prev, list) ==>
              Sound(Admit(prev, list), AdmittedCursors(prev, list))
              && Live(Admit(prev, list), AdmittedCursors(prev, list), LoadedOf(Admit(prev, list)))
  {
    var s := Admit(prev, list);
    if AdmissionPlayable(prev, list) {
      forall k | 0 <= k < ChannelMax && s[k] != null && AdmittedCursors(prev, list)[k].enabled
        ensures AdmittedCursors(prev, list)[k].position < s[k].asset.length
        ensures s[k].asset in LoadedOf(s)
      {
        assert s[k] in Occupants(s);
      }
    }
  }

  /** As written, re-admission re-enables a channel that a pass has drained
      while its requested flag is still the default `true`: listed again at
      the head of the host list it enters slot 0 enabled at frame `length`,
      so the tick's obligation fails, and the first visit of a pass that
      mixes frames reads the frame after the last one of its asset. */
  lemma RelistedDrainedReadsPastEnd(prev: seq<Channel?>, list: seq<Channel?>, c: Channel, lib: Library)
    requires |prev| == ChannelMax && 0 < |list| < 256 && list[0] == c
    requires c.position == c.asset.length && !c.enabled && c.requestEnabled
    requires Covers(lib, Admit(prev, list))
    ensures Admit(prev, list)[0] == c
    ensures AdmittedCursors(prev, list)[0] == Cursor(c.asset.length, true)
    ensures SlotReads(Admit(prev, list), AdmittedCursors(prev, list), 0) == [Read(0, c.asset, c.asset.length)]
    ensures !InBounds(lib, SlotReads(Admit(prev, list), AdmittedCursors(prev, list), 0))
    ensures !AdmissionPlayable(prev, list)
  {
    assert c == list[..AdmitBound(list)][0];
    assert Admit(prev, list)[0] == c;
    assert c in Occupants(Admit(prev, list));
    var q := Read(0, c.asset, c.asset.length);
    assert q in SlotReads(Admit(prev, list), AdmittedCursors(prev, list), 0);
  }

  /** Whether the guarded re-admission by `list` enables channel `c`: an
      admitted channel takes its requested flag only while it has frames
      left, any other keeps its own. */
  ghost predicate EnabledOnCheckedAdmission(c: Channel, list: seq<Channel?>)
    reads c
  {
    if c in list[..AdmitBound(list)] then c.requestEnabled && c.position < c.asset.length else c.enabled
  }

  /** Every non-null entry within the list's reach occupies a slot after
      re-admission. */
  lemma AdmittedOccupy(prev: seq<Channel?>, list: seq<Channel?>)
    requires |prev| == ChannelMax
    ensures Occupants(list[..AdmitBound(list)]) <= Occupants(Admit(prev, list))
  {
    var reach := list[..AdmitBound(list)];
    forall c | c in Occupants(reach)
      ensures c in Occupants(Admit(prev, list))
    {
      var k :| 0 <= k < |reach| && reach[k] == c;
      assert Admit(prev, list)[k] == c;
    }
  }

  /** The cursors the mix pass of a tick starts from, after the guarded
      re-admission. */
  ghost function CheckedCursors(prev: seq<Channel?>, list: seq<Channel?>): (r: seq<Cursor>)
    requires |prev| == ChannelMax
    reads Occupants(Admit(prev, list))
    ensures |r| == ChannelMax && Consistent(Admit(prev, list), r)
  {
    var s := Admit(prev, list);
    seq(ChannelMax, k requires 0 <= k < ChannelMax reads Occupants(s) =>
      if s[k] == null then Cursor(0, false) else Cursor(s[k].position, EnabledOnCheckedAdmission(s[k], list)))
  }

  /** The caller's obligation for a tick: after re-admission, every channel
      that will be enabled plays a loaded asset and has frames left. */
  ghost predicate CheckedAdmissionPlayable(prev: seq<Channel?>, list: seq<Channel?>)
    requires |prev| == ChannelMax
    reads Occupants(Admit(prev, list)), AssetsOf(Admit(prev, list))
  {
    forall c :: c in Occupants(Admit(prev, list)) && EnabledOnCheckedAdmission(c, list) ==>
      c.asset.Loaded() && c.position < c.asset.length
  }

  /** When a tick's obligation is met its starting cursors are sound, and
      every enabled one plays a loaded asset. */
  lemma CheckedSound(prev: seq<Channel?>, list: seq<Channel?>)
    requires |prev| == ChannelMax && CheckedAdmissionPlayable(prev, list)
    ensures Sound(Admit(prev, list), CheckedCursors(prev, list))
    ensures Live(Admit(prev, list), CheckedCursors(prev, list), LoadedOf(Admit(prev, list)))
  {
    var s := Admit(prev, list);
    forall k | 0 <= k < ChannelMax && s[k] != null && CheckedCursors(prev, list)[k].enabled
      ensures CheckedCursors(prev, list)[k].position < s[k].asset.length
      ensures s[k].asset in LoadedOf(s)
    {
      assert s[k] in Occupants(s);
    }
  }

  /** Re-admission and the pass change slots and channels only: with the
      assets and their buffers untouched, the library of the slots and the
      set of loaded assets are what they were. */
  twostate lemma AssetsKept(s: seq<Channel?>)
    requires unchanged(AssetsOf(s)) && unchanged(old(BuffersOf(s)))
    ensures LibraryOf(s) == old(LibraryOf(s)) && LoadedOf(s) == old(LoadedOf(s))
  {
  }

  /** With the guarded re-admission a tick is mixable whenever the previous
      pass left the slots playable and the channels the host requests with
      frames left play loaded assets: a drained channel listed again stays
      finished instead of being read past its end. */
  lemma CheckedTickPlayable(prev: seq<Channel?>, list: seq<Channel?>)
    requires |prev| == ChannelMax && Playable(prev)
    requires forall c :: c in Occupants(list[..AdmitBound(list)]) && c.requestEnabled && c.position < c.asset.length ==>
               c.asset.Loaded()
    ensures CheckedAdmissionPlayable(prev, list)
  {
    var s := Admit(prev, list);
    var reach := list[..AdmitBound(list)];
    forall c | c in Occupants(s) && EnabledOnCheckedAdmission(c, list)
      ensures c.asset.Loaded() && c.position < c.asset.length
    {
      if c !in reach {
        var k :| 0 <= k < ChannelMax && s[k] == c;
        assert prev[k] == c;
        assert c in Occupants(prev);
      }
    }
  }

  class Engine {
    /** The slot bank. */
    const slots: array<Channel?>
    /** The scratch buffer, as 16-bit samples. */
    const outputBuffer: array<int>

    ghost predicate Valid() {
      slots.Length == ChannelMax && outputBuffer.Length == OutputBufferBytes / 2
    }

    /** Create the engine: every slot empty, the scratch buffer zeroed. */
    constructor ()
      ensures Valid() && fresh(slots) && fresh(outputBuffer)
      ensures forall k :: 0 <= k < ChannelMax ==> slots[k] == null
      ensures forall k :: 0 <= k < outputBuffer.Length ==> outputBuffer[k] == 0
    {
      var bank := new Channel?[ChannelMax];
      var i := 0;
      while i < ChannelMax
        invariant 0 <= i <= ChannelMax
        invariant forall k :: 0 <= k < i ==> bank[k] == null
      {
        bank[i] := null;
        i := i + 1;
      }
      slots := bank;
      outputBuffer := new int[OutputBufferBytes / 2](_ => 0);
    }

    /** The re-admission loop of a tick: each slot within the list's reach
        takes the list's non-null entry, whose `enabled` becomes its
        `requestEnabled`; a null entry leaves the slot as it was; slots
        beyond the list's reach are cleared. */
    method AdmitChannels(list: seq<Channel?>)
      requires Valid()
      modifies slots, Occupants(list[..AdmitBound(list)])`enabled
      ensures slots[..] == Admit(old(slots[..]), list)
      ensures forall c :: c in Occupants(list[..AdmitBound(list)]) ==> c.enabled == c.requestEnabled
    {
      var soundCount := ListCount(list);
      ghost var prev := slots[..];
      ghost var reach := list[..AdmitBound(list)];
      var i := 0;
      while i < ChannelMax
        invariant 0 <= i <= ChannelMax
        invariant slots[..] == AdmitPrefix(prev, list, i)
        invariant forall k :: 0 <= k < i && k < AdmitBound(list) && list[k] != null ==>
                    list[k].enabled == list[k].requestEnabled
      {
        if i < soundCount {
          if list[i] != null {
            assert list[i] == reach[i];
            slots[i] := list[i];
            slots[i].enabled := slots[i].requestEnabled;
          }
        } else {
          slots[i] := null;
        }
        i := i + 1;
      }
      forall c | c in Occupants(reach)
        ensures c.enabled == c.requestEnabled
      {
        var k :| 0 <= k < |reach| && reach[k] == c;
        assert list[k] == c;
      }
    }

    /** The re-admission loop with the end-of-asset check that the as-written
        loop lacks: an admitted channel is enabled only when requested and
        frames remain, so a drained channel stays finished. */
    method AdmitChannelsChecked(list: seq<Channel?>)
      requires Valid()
      modifies slots, Occupants(list[..AdmitBound(list)])`enabled
      ensures slots[..] == Admit(old(slots[..]), list)
      ensures forall c :: c in Occupants(list[..AdmitBound(list)]) ==>
                c.enabled == (c.requestEnabled && c.position < c.asset.length)
    {
      var soundCount := ListCount(list);
      ghost var prev := slots[..];
      ghost var reach := list[..AdmitBound(list)];
      var i := 0;
      while i < ChannelMax
        invariant 0 <= i <= ChannelMax
        invariant slots[..] == AdmitPrefix(prev, list, i)
        invariant forall k :: 0 <= k < i && k < AdmitBound(list) && list[k] != null ==>
                    list[k].enabled == (list[k].requestEnabled && list[k].position < list[k].asset.length)
      {
        if i < soundCount {
          if list[i] != null {
            assert list[i] == reach[i];
            slots[i] := list[i];
            slots[i].enabled := slots[i].requestEnabled && slots[i].position < slots[i].asset.length;
          }
        } else {
          slots[i] := null;
        }
        i := i + 1;
      }
      forall c | c in Occupants(reach)
        ensures c.enabled == (c.requestEnabled && c.position < c.asset.length)
      {
        var k :| 0 <= k < |reach| && reach[k] == c;
        assert list[k] == c;
      }
    }

    /** One slot visit of the inner loop of a pass: an occupied, enabled
        slot yields its channel's current frame, advances the cursor by one
        and disables the channel at the end of its asset; the cursors then
        shown are StepSlot's. */
    method VisitSlot(c: nat, ghost s: seq<Channel?>, ghost cur: seq<Cursor>, ghost lib: Library, ghost loaded: set<Asset>)
      returns (played: bool, left: real, right: real)
      requires Valid() && s == slots[..] && c < ChannelMax && |cur| == ChannelMax
      requires Matches(s, cur) && Sound(s, cur) && Live(s, cur, loaded)
      requires Covers(lib, s) && Holds(lib, loaded)
      modifies Occupants(s)`position, Occupants(s)`enabled
      ensures Matches(s, StepSlot(s, cur, c))
      ensures played <==> s[c] != null && cur[c].enabled
      ensures played ==> 2 * cur[c].position + 1 < |lib[s[c].asset]|
      ensures played ==> left == lib[s[c].asset][2 * cur[c].position]
      ensures played ==> right == lib[s[c].asset][2 * cur[c].position + 1]
    {
      played, left, right := false, 0.0, 0.0;
      var channel := slots[c];
      if channel != null && channel.enabled {
        ReadInLibrary(lib, s, cur, c);
        var audio := channel.asset;
        assert audio in loaded;
        var frame := channel.position * OutputChannels;
        assert audio.buffer[frame] == lib[audio][frame] && audio.buffer[frame + 1] == lib[audio][frame + 1];
        played := true;
        left := audio.buffer[frame];
        right := audio.buffer[frame + 1];
        ghost var next := Advance(cur[c], audio.length);
        channel.position := channel.position + 1;
        channel.enabled := channel.position < audio.length;
        forall k | 0 <= k < |s| && s[k] != null
          ensures s[k].position == StepSlot(s, cur, c)[k].position && s[k].enabled == StepSlot(s, cur, c)[k].enabled
        {
          if s[k] == channel {
            assert StepSlot(s, cur, c)[k] == next;
          } else {
            assert StepSlot(s, cur, c)[k] == cur[k];
          }
        }
      }
    }

    /** One step of the inner loop of a pass: visit slot `c` and add what
        it plays to the running sums, which then cover the reads of the
        first `c + 1` slots. */
    method AddSlot(c: nat, ghost s: seq<Channel?>, ghost st: seq<Cursor>, ghost lib: Library, ghost loaded: set<Asset>,
                   left0: real, right0: real, contributors0: nat)
      returns (left: real, right: real, contributors: nat)
      requires Valid() && s == slots[..] && c < ChannelMax && |st| == ChannelMax
      requires Covers(lib, s) && Holds(lib, loaded)
      requires Matches(s, FramePrefix(s, st, c).cursors) && Summed(lib, loaded, s, st, c, left0, right0, contributors0)
      modifies Occupants(s)`position, Occupants(s)`enabled
      ensures Matches(s, FramePrefix(s, st, c + 1).cursors) && Summed(lib, loaded, s, st, c + 1, left, right, contributors)
    {
      ghost var fs := FramePrefix(s, st, c);
      SummedNext(lib, loaded, s, st, c, left0, right0, contributors0);
      FramePrefixNext(s, st, c);
      var played, l, r := VisitSlot(c, s, fs.cursors, lib, loaded);
      assert FramePrefix(s, st, c + 1).cursors == StepSlot(s, fs.cursors, c);
      if played {
        assert s[c] != null && fs.cursors[c].enabled;
        left, right, contributors := left0 + l, right0 + r, contributors0 + 1;
      } else {
        assert !(s[c] != null && fs.cursors[c].enabled);
        left, right, contributors := left0, right0, contributors0;
      }
    }

    /** The inner loop of a pass: visit the 8 slots in order, summing the
        frames of the slots that play.  The sums are SideSum over the reads
        of Frame, and the cursors move as Frame says. */
    method SumFrame(ghost s: seq<Channel?>, ghost st: seq<Cursor>, ghost lib: Library, ghost loaded: set<Asset>)
      returns (left: real, right: real, contributors: nat)
      requires Valid() && s == slots[..] && |st| == ChannelMax
      requires Matches(s, st) && Sound(s, st) && Live(s, st, loaded)
      requires Covers(lib, s) && Holds(lib, loaded)
      modifies Occupants(s)`position, Occupants(s)`enabled
      ensures Matches(s, Frame(s, st).cursors) && Live(s, Frame(s, st).cursors, loaded)
      ensures InBounds(lib, Frame(s, st).fetched)
      ensures contributors == |Frame(s, st).fetched|
      ensures left == SideSum(lib, Frame(s, st).fetched, 0)
      ensures right == SideSum(lib, Frame(s, st).fetched, 1)
    {
      left, right, contributors := 0.0, 0.0, 0;
      var c := 0;
      while c < ChannelMax
        invariant 0 <= c <= ChannelMax
        invariant Matches(s, FramePrefix(s, st, c).cursors) && Summed(lib, loaded, s, st, c, left, right, contributors)
      {
        left, right, contributors := AddSlot(c, s, st, lib, loaded, left, right, contributors);
        c := c + 1;
      }
    }

    /** Output frame `i` of a pass started from cursors `st0`: sum the
        slots, soft-clip when more than one channel contributed, and store
        both sides as 16-bit samples at positions 2i and 2i+1 of the scratch
        buffer; these are the pass's samples 2i and 2i+1. */
    method MixFrame(i: nat, tanh: real -> real, ghost s: seq<Channel?>, ghost st0: seq<Cursor>,
                    ghost st: seq<Cursor>, ghost lib: Library, ghost loaded: set<Asset>)
      requires Valid() && s == slots[..] && |st0| == ChannelMax && 2 * i + 1 < outputBuffer.Length
      requires Sound(s, st0) && Covers(lib, s) && Holds(lib, loaded)
      requires st == Pass(s, st0, i) && Matches(s, st) && Sound(s, st) && Live(s, st, loaded)
      modifies Occupants(s)`position, Occupants(s)`enabled, outputBuffer
      ensures Matches(s, Frame(s, st).cursors) && Live(s, Frame(s, st).cursors, loaded)
      ensures outputBuffer[2 * i] == PassSample(s, st0, lib, tanh, 2 * i)
      ensures outputBuffer[2 * i + 1] == PassSample(s, st0, lib, tanh, 2 * i + 1)
      ensures forall k :: 0 <= k < outputBuffer.Length && k != 2 * i && k != 2 * i + 1 ==>
                outputBuffer[k] == old(outputBuffer[k])
    {
      PassSampleOfFrame(s, st0, lib, tanh, i);
      var left, right, totalEnabled := SumFrame(s, st, lib, loaded);
      if totalEnabled > 1 {
        left := tanh(left);
        right := tanh(right);
      }
      outputBuffer[i * 2] := Quantize(left);
      outputBuffer[i * 2 + 1] := Quantize(right);
    }

    /** Zero the first device buffer's worth of the scratch buffer. */
    method ClearScratch()
      requires Valid()
      modifies outputBuffer
      ensures forall k :: 0 <= k < ClearedBytes / 2 ==> outputBuffer[k] == 0
      ensures forall k :: ClearedBytes / 2 <= k < outputBuffer.Length ==> outputBuffer[k] == old(outputBuffer[k])
    {
      forall k | 0 <= k < ClearedBytes / 2 {
        outputBuffer[k] := 0;
      }
    }

    /** The frame loop of a pass: mix frames 0 .. n-1 from cursors `st0`
        into the cleared scratch buffer. */
    method MixFrames(n: nat, tanh: real -> real, ghost s: seq<Channel?>, ghost st0: seq<Cursor>, ghost lib: Library,
                     ghost loaded: set<Asset>)
      requires Valid() && s == slots[..] && |st0| == ChannelMax && n <= TotalFrames
      requires Matches(s, st0) && Sound(s, st0) && Live(s, st0, loaded) && Covers(lib, s) && Holds(lib, loaded)
      requires forall k :: 0 <= k < ClearedBytes / 2 ==> outputBuffer[k] == 0
      modifies Occupants(s)`position, Occupants(s)`enabled, outputBuffer
      ensures Matches(s, Pass(s, st0, n)) && Sound(s, Pass(s, st0, n)) && Live(s, Pass(s, st0, n), loaded)
      ensures forall k :: 0 <= k < 2 * n ==> outputBuffer[k] == PassSample(s, st0, lib, tanh, k)
      ensures forall k :: 2 * n <= k < ClearedBytes / 2 ==> outputBuffer[k] == 0
      ensures forall k :: ClearedBytes / 2 <= k < outputBuffer.Length ==> outputBuffer[k] == old(outputBuffer[k])
    {
      ghost var st := st0;
      var i := 0;
      while i < n
        invariant 0 <= i <= n
        invariant st == Pass(s, st0, i)
        invariant Matches(s, st) && Sound(s, st) && Live(s, st, loaded)
        invariant forall k :: 0 <= k < 2 * i ==> outputBuffer[k] == PassSample(s, st0, lib, tanh, k)
        invariant forall k :: 2 * i <= k < ClearedBytes / 2 ==> outputBuffer[k] == 0
        invariant forall k :: ClearedBytes / 2 <= k < outputBuffer.Length ==> outputBuffer[k] == old(outputBuffer[k])
      {
        PassNext(s, st0, i);
        FrameSound(s, st);
        MixFrame(i, tanh, s, st0, st, lib, loaded);
        st := Frame(s, st).cursors;
        i := i + 1;
      }
    }

    /** A pass of `n` frames over the current slots, into the cleared
        scratch buffer: what it hands over is the pass's output, and the
        channels are left at the pass's cursors. */
    method MixPass(n: nat, tanh: real -> real) returns (sent: seq<int>)
      requires Valid() && n <= TotalFrames
      requires n > 0 ==> Playable(slots[..])
      modifies Occupants(slots[..])`position, Occupants(slots[..])`enabled, outputBuffer
      ensures slots[..] == old(slots[..])
      ensures old(Playable(slots[..])) ==> Playable(slots[..])
      ensures Snapshot(slots[..]) == old(Pass(slots[..], Snapshot(slots[..]), n))
      ensures sent == old(PassOutput(slots[..], Snapshot(slots[..]), LibraryOf(slots[..]), tanh, n))
      ensures 2 * n <= ClearedBytes / 2 <= outputBuffer.Length
      ensures |sent| == 2 * n && sent == outputBuffer[..2 * n]
      ensures forall k :: 2 * n <= k < ClearedBytes / 2 ==> outputBuffer[k] == 0
      ensures forall k :: ClearedBytes / 2 <= k < outputBuffer.Length ==> outputBuffer[k] == old(outputBuffer[k])
    {
      assert 2 * n <= ClearedBytes / 2 <= outputBuffer.Length;
      ghost var s := slots[..];
      ghost var st0 := Snapshot(s);
      ghost var lib := LibraryOf(s);
      ghost var loaded := LoadedOf(s);
      if n > 0 {
        MixReady(s);
      }
      ClearScratch();
      if n == 0 {
        // The frame loop runs no iteration: no channel is read or moved.
        sent := [];
      } else {
        MixFrames(n, tanh, s, st0, lib, loaded);
        sent := outputBuffer[..2 * n];
        PassCompleted(s, st0, lib, loaded, tanh, n, sent);
      }
    }

    /** One mix pass.  The scratch buffer's first device buffer is cleared;
        the pass produces 2048 frames minus the backlog (the queued bytes in
        whole frames), advancing the cursors as Pass does and writing
        PassOutput as interleaved samples; those samples are what is handed
        to the device. */
    method Mix(queuedBytes: nat, tanh: real -> real) returns (sent: seq<int>)
      requires Valid()
      requires queuedBytes / BytesPerFrame <= TotalFrames
      requires FramesToWrite(queuedBytes) > 0 ==> Playable(slots[..])
      modifies Occupants(slots[..])`position, Occupants(slots[..])`enabled, outputBuffer
      ensures slots[..] == old(slots[..])
      ensures old(Playable(slots[..])) ==> Playable(slots[..])
      ensures |sent| == 2 * FramesToWrite(queuedBytes) <= ClearedBytes / 2 <= outputBuffer.Length
      ensures EnqueuedBytes(FramesToWrite(queuedBytes)) == 2 * |sent|
      ensures Snapshot(slots[..]) == old(Pass(slots[..], Snapshot(slots[..]), FramesToWrite(queuedBytes)))
      ensures sent == old(PassOutput(slots[..], Snapshot(slots[..]), LibraryOf(slots[..]), tanh, FramesToWrite(queuedBytes)))
      ensures sent == outputBuffer[..|sent|]
      ensures forall k :: |sent| <= k < ClearedBytes / 2 ==> outputBuffer[k] == 0
      ensures forall k :: ClearedBytes / 2 <= k < outputBuffer.Length ==> outputBuffer[k] == old(outputBuffer[k])
      ensures forall c :: c in Occupants(slots[..]) ==> c.requestEnabled == old(c.requestEnabled)
    {
      var framesToWrite := FramesToWrite(queuedBytes);
      EnqueueWithinBuffer(queuedBytes);
      sent := MixPass(framesToWrite, tanh);
    }

    /** The re-admission of a tick as the source writes it, seen from the
        pass it prepares: the slots then show the tick's starting cursors,
        the library of their assets is unchanged, and they are playable
        when the tick's obligation holds. */
    method Readmit(list: seq<Channel?>)
      requires Valid()
      modifies slots, Occupants(Admit(slots[..], list))`enabled
      ensures slots[..] == Admit(old(slots[..]), list)
      ensures Snapshot(slots[..]) == old(AdmittedCursors(slots[..], list))
      ensures LibraryOf(slots[..]) == old(LibraryOf(Admit(slots[..], list)))
      ensures old(AdmissionPlayable(slots[..], list)) ==> Playable(slots[..])
      ensures forall c :: c in Occupants(slots[..]) ==> c.requestEnabled == old(c.requestEnabled)
    {
      ghost var prev := slots[..];
      ghost var s := Admit(prev, list);
      ghost var admitted := AdmittedCursors(prev, list);
      ghost var playable := AdmissionPlayable(prev, list);
      AdmittedOccupy(prev, list);
      AdmittedSound(prev, list);
      AdmitChannels(list);
      forall k | 0 <= k < ChannelMax
        ensures Snapshot(s)[k] == admitted[k]
      {
        if s[k] != null {
          assert s[k].enabled == old(EnabledOnAdmission(s[k], list));
        }
      }
      AssetsKept(s);
      MatchesSnapshot(s);
      if playable {
        PlayableOfMatches(s, admitted, LoadedOf(s));
      }
    }

    /** One tick as the source runs it: re-admit the host's channels, then
        run one mix pass from the cursors that re-admission leaves.  Only
        the channels in the new slots change, and only their cursors.  The
        caller's obligation matters only when the pass mixes frames. */
    method Update(list: seq<Channel?>, queuedBytes: nat, tanh: real -> real) returns (sent: seq<int>)
      requires Valid()
      requires queuedBytes / BytesPerFrame <= TotalFrames
      requires FramesToWrite(queuedBytes) > 0 ==> AdmissionPlayable(slots[..], list)
      modifies slots, outputBuffer
      modifies Occupants(Admit(slots[..], list))`position, Occupants(Admit(slots[..], list))`enabled
      ensures slots[..] == Admit(old(slots[..]), list)
      ensures old(AdmissionPlayable(slots[..], list)) ==> Playable(slots[..])
      ensures old(FramesToWrite(queuedBytes) > 0 ==> Sound(Admit(slots[..], list), AdmittedCursors(slots[..], list)))
      ensures Snapshot(slots[..]) == Pass(slots[..], old(AdmittedCursors(slots[..], list)), FramesToWrite(queuedBytes))
      ensures |sent| == 2 * FramesToWrite(queuedBytes) <= ClearedBytes / 2 <= outputBuffer.Length
      ensures EnqueuedBytes(FramesToWrite(queuedBytes)) == 2 * |sent|
      ensures sent == old(PassOutput(Admit(slots[..], list), AdmittedCursors(slots[..], list),
                                     LibraryOf(Admit(slots[..], list)), tanh, FramesToWrite(queuedBytes)))
      ensures sent == outputBuffer[..|sent|]
      ensures forall k :: |sent| <= k < ClearedBytes / 2 ==> outputBuffer[k] == 0
      ensures forall k :: ClearedBytes / 2 <= k < outputBuffer.Length ==> outputBuffer[k] == old(outputBuffer[k])
      ensures forall c :: c in old(Occupants(slots[..])) + Occupants(list) && c !in Occupants(slots[..]) ==>
                c.position == old(c.position) && c.enabled == old(c.enabled) && c.requestEnabled == old(c.requestEnabled)
      ensures forall c :: c in Occupants(slots[..]) ==> c.requestEnabled == old(c.requestEnabled)
    {
      ghost var s := Admit(slots[..], list);
      ghost var outside := old(Occupants(slots[..])) + Occupants(list) - Occupants(s);
      AdmittedSound(slots[..], list);
      Readmit(list);
      assert forall c :: c in outside ==>
        c.position == old(c.position) && c.enabled == old(c.enabled) && c.requestEnabled == old(c.requestEnabled);
      sent := Mix(queuedBytes, tanh);
    }

    /** The guarded re-admission of a tick, seen from the pass it prepares: the
        slots then show the tick's starting cursors, the library of their
        assets is unchanged, and they are playable. */
    method ReadmitChecked(list: seq<Channel?>)
      requires Valid() && CheckedAdmissionPlayable(slots[..], list)
      modifies slots, Occupants(Admit(slots[..], list))`enabled
      ensures slots[..] == Admit(old(slots[..]), list)
      ensures Snapshot(slots[..]) == old(CheckedCursors(slots[..], list))
      ensures LibraryOf(slots[..]) == old(LibraryOf(Admit(slots[..], list)))
      ensures Playable(slots[..])
      ensures forall c :: c in Occupants(slots[..]) ==> c.requestEnabled == old(c.requestEnabled)
    {
      ghost var prev := slots[..];
      ghost var s := Admit(prev, list);
      ghost var admitted := CheckedCursors(prev, list);
      AdmittedOccupy(prev, list);
      CheckedSound(prev, list);
      AdmitChannelsChecked(list);
      forall k | 0 <= k < ChannelMax
        ensures Snapshot(s)[k] == admitted[k]
      {
        if s[k] != null {
          assert s[k].enabled == old(EnabledOnCheckedAdmission(s[k], list));
        }
      }
      AssetsKept(s);
      MatchesSnapshot(s);
      PlayableOfMatches(s, admitted, LoadedOf(s));
    }

    /** One tick with the guarded re-admission: re-admit the host's
        channels with the end-of-asset check, then run one mix pass from
        the cursors that re-admission leaves.  Only the channels in the new
        slots change, and only their cursors. */
    method UpdateChecked(list: seq<Channel?>, queuedBytes: nat, tanh: real -> real) returns (sent: seq<int>)
      requires Valid()
      requires queuedBytes / BytesPerFrame <= TotalFrames
      requires CheckedAdmissionPlayable(slots[..], list)
      modifies slots, outputBuffer
      modifies Occupants(Admit(slots[..], list))`position, Occupants(Admit(slots[..], list))`enabled
      ensures slots[..] == Admit(old(slots[..]), list)
      ensures Playable(slots[..])
      ensures old(Sound(Admit(slots[..], list), CheckedCursors(slots[..], list)))
      ensures Snapshot(slots[..]) == Pass(slots[..], old(CheckedCursors(slots[..], list)), FramesToWrite(queuedBytes))
      ensures |sent| == 2 * FramesToWrite(queuedBytes) <= ClearedBytes / 2 <= outputBuffer.Length
      ensures EnqueuedBytes(FramesToWrite(queuedBytes)) == 2 * |sent|
      ensures sent == old(PassOutput(Admit(slots[..], list), CheckedCursors(slots[..], list),
                                     LibraryOf(Admit(slots[..], list)), tanh, FramesToWrite(queuedBytes)))
      ensures sent == outputBuffer[..|sent|]
      ensures forall k :: |sent| <= k < ClearedBytes / 2 ==> outputBuffer[k] == 0
      ensures forall k :: ClearedBytes / 2 <= k < outputBuffer.Length ==> outputBuffer[k] == old(outputBuffer[k])
      ensures forall c :: c in old(Occupants(slots[..])) + Occupants(list) && c !in Occupants(slots[..]) ==>
                c.position == old(c.position) && c.enabled == old(c.enabled) && c.requestEnabled == old(c.requestEnabled)
      ensures forall c :: c in Occupants(slots[..]) ==> c.requestEnabled == old(c.requestEnabled)
    {
      CheckedSound(slots[..], list);
      ReadmitChecked(list);
      sent := Mix(queuedBytes, tanh);
    }
  }
}
