# Fixed-bank audio mixer of the dome engine, in Dafny

This project models the audio core of the dome game engine
(`src/engine/audio.c`) and proves properties of it:

- **Assets** (`AudioAsset.Asset`). Loading turns decoded 16-bit PCM into an
  interleaved stereo buffer of normalised samples. Unloading releases the
  buffer and is idempotent.
- **Channels** (`AudioChannel.Channel`). A channel is a playback cursor: a
  `position` in stereo frames and two flags. `enabled` is what the mixer
  honours. `requestEnabled` is the host's wish. The channel is bound to one
  shared asset.
- **The engine** (`AudioEngine.Engine`). It has a bank of 8 nullable slots
  (`array<Channel?>`) and a reused scratch buffer of 16-bit samples
  (`array<int>`). Each tick (`Update`) re-admits the host's channels into
  the slots as the code does (`Readmit`, around `AdmitChannels`). It then
  runs one mix pass (`Mix`). `UpdateChecked` and `ReadmitChecked` are the
  same tick with the end-of-asset check on re-admission (see "## Findings").
  The pass produces the frames the device lacks: 2048 minus the backlog. In every
  output frame it visits the slots in order. Each occupied, enabled slot
  adds its channel's current frame and advances the cursor by one frame,
  disabling it at the end of the asset. Both sides are soft-clipped when
  more than one channel contributed. The result is written as interleaved
  16-bit samples.

The imperative parts keep the source's shape. `Mix` is a pass loop
(`MixFrames`) over a per-frame step (`MixFrame`). The slot loop
(`SumFrame`) runs one visit per slot (`AddSlot` around `VisitSlot`). These
methods update the channels' fields in place and write the scratch array.
Each is proved against pure specification functions in module `Mixing`:

- `StepSlot`: one slot visit;
- `FramePrefix` / `Frame`: the visits of one output frame;
- `Pass`: the cursors after `n` frames;
- `PassOutput`: the samples of `n` frames;
- `FramesToWrite` / `EnqueuedBytes`: backpressure.

These functions work on a snapshot of the cursors, `seq<Cursor>`, indexed
by slot. When one channel object sits in several slots, every slot holding
it shows the advance. Module `MixLaws` proves what the source promises about
those functions.

Modelling choices:

- Samples are exact reals.
- `tanh` is a parameter of `Mix`/`Update`.
- The `(int16_t)(x * INT16_MAX)` cast is `Pcm.Quantize`: it truncates toward
  zero, with lemmas for when the result fits 16 bits.
- The device backlog is the parameter `queuedBytes`.
- The bytes handed to the device are `Mix`'s result `sent`, with the length
  `EnqueuedBytes`.
- The host list is a `seq<Channel?>`.
- The decoded WAV data is an input sequence of `Int16`, together with its
  byte count and channel count.

Behaviour of the code that the model keeps as it is:

- `Load` has no error path: the code never checks the decoder's result.
- Any source with two or more channels is accepted, and its first two
  channels are taken. `RightIndex` and `Normalize` model this.
- A device that fails to open is not handled by the code.
- List entries after the eighth are ignored. The list length is also
  stored in a `uint8_t` (`ListCount`), so a list of 256 entries clears
  every slot (`FullByteListClears`).
- Re-admission sets `enabled := requestEnabled` without checking the
  position (`AdmitChannels`). `Update` does the same, so a drained channel
  listed again is enabled at the end of its asset, and a pass that mixes
  frames would read past that end (see "## Findings").
- A null list entry inside the list's reach leaves the slot's occupant in
  place (`Admit`).
- The same channel in two slots advances twice per frame
  (`SharedSlotsCursor`).
- `volume` is never read.

## Model

| member | source | states |
|---|---|---|
| Pcm.Scale | src/engine/audio.c:87 | A source sample divided by INT16_MAX lies in [INT16_MIN/INT16_MAX, 1] and multiplies back to the sample |
| Pcm.TruncToZero | src/engine/audio.c:70-71 | C's float-to-integer conversion, which drops the fraction toward zero; `TruncToZeroBounds` states what it yields |
| Pcm.TruncToZeroBounds | src/engine/audio.c:70-71 | C's float-to-integer conversion yields the integer next to the value on the side of zero |
| Pcm.Quantize | src/engine/audio.c:70-71 | The device sample `(int16_t)(x * INT16_MAX)`, left unbounded; `QuantizeTruncates` and `QuantizeFits` state its value and range |
| Pcm.QuantizeTruncates | src/engine/audio.c:70-71 | The device sample is `x * INT16_MAX` with its fraction dropped toward zero |
| Pcm.QuantizeFits | src/engine/audio.c:70-71 | Every value in the normalised range converts to a value that fits int16 |
| Pcm.QuantizeScale | src/engine/audio.c:70-71 | Converting a scaled source sample back to 16 bits returns that source sample |
| Pcm.RightIndex | src/engine/audio.c:87-91 | The source index of a frame's right sample: the same sample for mono data, the second channel otherwise; `FrameIndexInRange` bounds it |
| Pcm.FrameIndexInRange | src/engine/audio.c:87-91 | Both source indices read for frame `i < frames` lie inside data of `frames * ch` samples |
| Pcm.FramesFit | src/engine/audio.c:82-83 | The frame count `bytes / (2*ch)` is nonnegative and needs no more samples than the decoded data holds |
| Pcm.Normalize | src/engine/audio.c:84-93 | The converted buffer has two entries per frame, all in the normalised range |
| Pcm.NormalizeNext | src/engine/audio.c:86-93 | Converting one more frame appends its left and right sample |
| Pcm.NormalizeFrame | src/engine/audio.c:86-93 | Frame `i` takes channel 0 on the left, and on the right channel 0 again (mono) or channel 1 (otherwise) |
| Pcm.MonoDuplicated | src/engine/audio.c:88-89 | For mono data, left == right == `src[i]/INT16_MAX` |
| Pcm.StereoScaled | src/engine/audio.c:90-91 | For stereo data, frame `i` is `src[2i]` and `src[2i+1]`, each divided by INT16_MAX |
| AudioAsset.Asset.Load | src/engine/audio.c:76-97 | The name is the path cut to its first 255 elements (C cuts at 255 bytes); `length` is bytes / (2 × source channels); the buffer is fresh, holds 2·length samples and equals `Normalize` of the decoded data |
| AudioAsset.ConvertFrame | src/engine/audio.c:87-92 | One loop iteration extends the converted prefix by one frame |
| AudioAsset.Asset.Unload | src/engine/audio.c:100-111 | The buffer is null afterwards; unloading an unloaded asset changes nothing |
| AudioChannel.Channel.constructor | src/engine/audio.c:165-172 | The id is the host's number truncated to int16; the asset is bound; position 0; both flags true |
| AudioChannel.Channel.IsFinished | src/engine/audio.c:174-177 | A channel reports finished exactly when it is not enabled; `SoleChannelFinished` and `DrainsAfterLength` state when that happens |
| AudioChannel.Channel.GetId | src/engine/audio.c:179-182 | Returns the stored 16-bit id |
| AudioChannel.Channel.SetEnabled | src/engine/audio.c:184-187 | Sets only `requestEnabled`; `enabled` and the cursor are untouched |
| AudioEngine.SoleChannelFinished | src/engine/audio.c:174-177 | After a pass the slots show, `IsFinished` (`!enabled`) holds for a lone channel started at p exactly when p + n ≥ length, and the cursor rests at min(p + n, length) |
| Mixing.Advance | src/engine/audio.c:62-63 | The per-visit rule: move one frame, stay enabled only while frames remain; `AdvanceByAdds` and `SoleSlotCursor` state its effect over many visits |
| Mixing.StepSlot | src/engine/audio.c:52-64 | One slot visit on the cursor snapshot: an occupied, enabled slot advances its channel in every slot holding it; `StepSlotKeeps` and `VisitSlot` relate it to the source |
| Mixing.SlotReads | src/engine/audio.c:53-61 | The asset frame an occupied, enabled slot reads, at the channel's position; `FramePrefixSilent` and `FramePrefixHasSole` state when it is empty |
| Mixing.FramePrefix | src/engine/audio.c:51-65 | The first `m` slot visits of one frame, slot by slot; `FramePrefixCursor` and `FramePrefixReads` characterise it |
| Mixing.Frame | src/engine/audio.c:48-65 | One output frame visits all 8 slots in order; `SumFrame` is proved against it |
| Mixing.Pass | src/engine/audio.c:47-64 | The cursors after `n` frames; `PassCursor`, `SoleSlotCursor` and `MixFrames` characterise it |
| Mixing.SideSum | src/engine/audio.c:49-61 | The left or right sum of a frame over its reads; `SideSumAppend` and `SumFrame` relate it to the loop |
| Mixing.SoftClip | src/engine/audio.c:66-69 | `tanh` applied only when more than one channel contributed; `SoleChannelFrame` and `SharedFrameClipped` state both cases |
| Mixing.MixedSample | src/engine/audio.c:66-71 | A side's device sample: soft clip then 16-bit conversion; `MixedSampleFits` bounds it |
| Mixing.StepSlotKeeps | src/engine/audio.c:52-64 | A slot visit leaves empty slots alone, keeps enabled cursors inside their assets, and keeps the slots of one channel in agreement |
| Mixing.FramePrefixKeeps | src/engine/audio.c:51-65 | The same for any number of slot visits in a frame |
| Mixing.FramePrefixReads | src/engine/audio.c:53-61 | Every frame read comes from an occupied slot already visited and its asset; from sound cursors the read lies inside the asset |
| Mixing.FramePrefixSums | src/engine/audio.c:53-61 | Visiting a slot adds its frame to both sums exactly when it holds an enabled channel |
| Mixing.ReadAppended | src/engine/audio.c:56-61 | One more read inside its asset keeps the reads in bounds and adds its samples to both sums |
| Mixing.Live | src/engine/audio.c:53-56 | Every enabled cursor plays an asset in a given set (the loaded ones) |
| Mixing.StepSlotLive | src/engine/audio.c:53-63 | A visit never enables a cursor, so enabled cursors keep playing assets of the set |
| Mixing.Summed | src/engine/audio.c:48-61 | The slot loop's state after `c` visits: sound, live cursors, and sums and count equal to those of the reads so far |
| Mixing.SummedNext | src/engine/audio.c:52-64 | A visit adds the frame it plays, if any, to the sums and the count, and the state then covers one more visit |
| Mixing.PassKeeps | src/engine/audio.c:47-72 | A pass keeps empty slots, soundness (`position < length` while enabled) and agreement |
| Mixing.FrameSound | src/engine/audio.c:51-65 | A frame started from sound cursors leaves them sound |
| Mixing.PassKeepsEmpty | src/engine/audio.c:52-53 | A pass leaves empty slots' cursors alone |
| Mixing.PassNext | src/engine/audio.c:47 | One more output frame extends the pass by one frame |
| Mixing.SideSumAppend | src/engine/audio.c:60-61 | The running sums grow by the next read's samples |
| Mixing.InBoundsAppend | src/engine/audio.c:56-57 | A read inside its asset keeps the reads in bounds |
| Mixing.ReadInLibrary | src/engine/audio.c:56-57 | An occupied, enabled, sound slot reads inside its asset's `2*length` samples |
| Mixing.FrameReadsInBounds | src/engine/audio.c:56-61 | All reads of a frame from sound cursors stay inside the assets |
| Mixing.PassReadsInBounds | src/engine/audio.c:47-61 | The same for every frame of a pass |
| Mixing.PassOutput | src/engine/audio.c:47-72 | A pass of `n` frames writes exactly `2n` samples; only a pass that mixes frames needs sound cursors |
| Mixing.PassSampleOfFrame | src/engine/audio.c:70-71 | Samples `2i` and `2i+1` of a pass are the left and right of frame `i` |
| Mixing.PassOutputAt | src/engine/audio.c:47-72 | Sample `k` of the pass output is side `k % 2` of frame `k / 2` |
| Mixing.PassOutputSamples | src/engine/audio.c:47-72 | The same for every sample of the output |
| Mixing.PassOutputNext | src/engine/audio.c:47-72 | One more frame appends that frame's two device samples |
| Mixing.FramesToWrite | src/engine/audio.c:41-42 | The frame count is at most 2048; it is nonnegative exactly when the backlog is at most 2048 frames; with no backlog it is 2048 |
| Mixing.EnqueuedBytes | src/engine/audio.c:73 | The enqueued length is a Uint32; for a nonnegative count it is `frames * 4` unless that overflows |
| Mixing.EnqueueWithinBuffer | src/engine/audio.c:39-42 | Within the backlog bound exactly `framesToWrite * 4` bytes are enqueued, all inside the cleared part of the buffer |
| Mixing.BacklogOverrun | src/engine/audio.c:41-42 | A backlog over 2048 frames makes the count negative, and the wrapped length exceeds the whole scratch buffer |
| MixLaws.HitsNone | src/engine/audio.c:51-53 | A channel held by none of the first `m` slots is visited 0 times |
| MixLaws.HitsSole | src/engine/audio.c:51-53 | A channel held by one slot is visited once per frame |
| MixLaws.HitsShared | src/engine/audio.c:51-53 | A channel held by two slots is visited twice per frame |
| MixLaws.AdvanceByAdds | src/engine/audio.c:62-63 | Advancing by x visits then by y visits is advancing by x + y |
| MixLaws.FramePrefixCursor | src/engine/audio.c:51-64 | After `m` visits a channel has advanced once per slot among them that holds it |
| MixLaws.PassCursor | src/engine/audio.c:47-64 | After `n` frames a channel has advanced `n` times the number of slots holding it |
| MixLaws.SoleSlotCursor | src/engine/audio.c:47-64 | A channel in one slot, enabled at p < L, ends `n` frames at min(p + n, L), enabled iff p + n < L |
| MixLaws.SharedSlotsCursor | src/engine/audio.c:51-63 | A channel in two slots ends `n` frames at min(p + 2n, L) |
| MixLaws.DisabledStaysDisabled | src/engine/audio.c:53-63 | A channel disabled at some frame of a pass stays disabled and in place for the rest of it |
| MixLaws.AdvanceByStuck | src/engine/audio.c:53-63 | A stopped cursor stays stopped under any number of visits |
| MixLaws.FramePrefixSilent | src/engine/audio.c:53 | An empty or disabled slot contributes no read |
| MixLaws.DrainsAfterLength | src/engine/audio.c:47-64 | A fresh lone channel on an asset of L frames plays for L frames, is finished after exactly L, and contributes nothing afterwards |
| MixLaws.FramePrefixSole | src/engine/audio.c:51-65 | With one enabled channel, a frame reads exactly its current frame once its slot is visited |
| MixLaws.SoleChannelFrame | src/engine/audio.c:48-71 | With one contributor there is no soft clip: the device gets the sample scaled by INT16_MAX |
| MixLaws.FramePrefixHasSole | src/engine/audio.c:53-61 | An enabled channel alone in its slot is read at its current frame once that slot is visited |
| MixLaws.SharedFrameClipped | src/engine/audio.c:54-68 | With two different enabled channels, at least two contributions are summed and both sides are soft-clipped |
| MixLaws.ConvertedSampleIsSource | src/engine/audio.c:70-93 | Converting a normalised sample back to 16 bits gives the source sample it was built from |
| MixLaws.SoleChannelReproducesSource | src/engine/audio.c:47-93 | A lone channel hands the device its asset's own 16-bit samples (mono duplicated, stereo unchanged) |
| MixLaws.MixedSampleFits | src/engine/audio.c:66-71 | With normalised assets and a clip into [-1, 1], every written sample fits int16 |
| MixLaws.OutputFitsInt16 | src/engine/audio.c:47-72 | The same for every sample of a pass |
| AudioEngine.ListCount | src/engine/audio.c:142 | The list count as a `uint8_t`: exact below 256 entries, never above the list length |
| AudioEngine.AdmitBound | src/engine/audio.c:143-144 | The slots reached number at most 8 and at most the list length |
| AudioEngine.AdmitPrefix | src/engine/audio.c:143-153 | After `i` iterations: slots beyond `i` are untouched; reached slots take non-null entries and keep their occupant for null entries; unreached slots are null |
| AudioEngine.Admit | src/engine/audio.c:143-153 | Slots at or beyond min(count, 8) are null; earlier slots hold the non-null entry, or are unchanged for a null entry |
| AudioEngine.AdmitIdempotent | src/engine/audio.c:143-153 | Re-admitting the same list changes nothing |
| AudioEngine.AdmitForgetsPrevious | src/engine/audio.c:143-153 | A list with no null entries within reach fixes every slot, whatever the slots held before |
| AudioEngine.AdmitIgnoresTail | src/engine/audio.c:143-144 | List entries after the eighth are ignored (below 256 entries) |
| AudioEngine.FullByteListClears | src/engine/audio.c:142-151 | A 256-entry list clears every slot |
| AudioEngine.LibraryOf | src/engine/audio.c:55-56 | The samples of the slots' assets cover every occupied slot, and for every loaded asset they are its buffer |
| AudioEngine.Snapshot | src/engine/audio.c:10-24 | The slots' cursors; sound when no enabled channel is past its end |
| AudioEngine.MatchesSnapshot | src/engine/audio.c:24 | The slots show their own snapshot; empty slots show a disabled cursor at 0 |
| AudioEngine.SnapshotConsistent | src/engine/audio.c:24 | Slots holding one channel show one cursor |
| AudioEngine.SnapshotOfMatches | src/engine/audio.c:24 | Cursors the slots show are their snapshot |
| AudioEngine.Playable | src/engine/audio.c:53-63 | What a pass needs: every enabled channel plays a loaded asset and has frames left; disabled channels are unconstrained |
| AudioEngine.PlayableOfMatches | src/engine/audio.c:53-63 | Slots showing sound cursors whose enabled ones play loaded assets may be mixed again |
| AudioEngine.MixReady | src/engine/audio.c:34-47 | Mixable slots show a sound snapshot whose enabled cursors play loaded assets |
| AudioEngine.PassCompleted | src/engine/audio.c:47-72 | Slots showing the pass's cursors, and a sequence agreeing with it sample by sample, are the pass's snapshot and output, and the slots stay playable |
| AudioEngine.EnabledOnAdmission | src/engine/audio.c:147-148 | As written, an admitted channel becomes enabled iff it requests it; other channels keep their flag |
| AudioEngine.AdmittedCursors | src/engine/audio.c:143-148 | The cursors a tick's pass starts from after re-admission as written (admitted channels take their requested flag); slots holding one channel agree |
| AudioEngine.AdmissionPlayable | src/engine/audio.c:143-148 | The caller's obligation for a tick that mixes frames: every channel enabled by re-admission as written plays a loaded asset and has frames left |
| AudioEngine.AdmittedSound | src/engine/audio.c:143-148 | Whenever that obligation holds, the starting cursors are sound and every enabled one plays a loaded asset |
| AudioEngine.RelistedDrainedReadsPastEnd | src/engine/audio.c:147-148 | As written, a drained channel still requesting play, listed first, enters slot 0 with cursor (`length`, enabled); its next read, frame `length`, lies outside its asset's `2*length` samples, and the tick's obligation fails |
| AudioEngine.AdmittedOccupy | src/engine/audio.c:143-149 | Every non-null entry within the list's reach occupies a slot after re-admission |
| AudioEngine.AssetsKept | src/engine/audio.c:138-155 | A tick leaves the assets and their buffers alone, so the slots' samples and loaded assets are unchanged |
| AudioEngine.EnabledOnCheckedAdmission | src/engine/audio.c:147-148 | Corrected: an admitted channel becomes enabled iff it requests it and has frames left |
| AudioEngine.CheckedCursors | src/engine/audio.c:143-148 | Corrected: the starting cursors after the guarded re-admission; slots holding one channel agree |
| AudioEngine.CheckedAdmissionPlayable | src/engine/audio.c:143-148 | Corrected: the caller's obligation for a tick: every channel enabled by the guarded re-admission plays a loaded asset and has frames left |
| AudioEngine.CheckedSound | src/engine/audio.c:143-148 | Corrected: under the guarded obligation the starting cursors are sound and every enabled one plays a loaded asset |
| AudioEngine.CheckedTickPlayable | src/engine/audio.c:143-153 | Corrected: with the guarded re-admission a tick is mixable whenever the last pass left the slots playable and the requested channels with frames left play loaded assets |
| AudioEngine.Engine.constructor | src/engine/audio.c:113-128 | All 8 slots are null and the scratch buffer (2048·2·4 bytes) is zeroed |
| AudioEngine.Engine.AdmitChannels | src/engine/audio.c:142-153 | The slots become `Admit(old slots, list)` and every admitted channel has `enabled == requestEnabled` |
| AudioEngine.Engine.AdmitChannelsChecked | src/engine/audio.c:142-153 | Corrected loop: the slots become `Admit(old slots, list)` and every admitted channel is enabled iff it requests it and has frames left |
| AudioEngine.Engine.VisitSlot | src/engine/audio.c:52-64 | One visit moves the cursors as `StepSlot` does; it plays iff the slot is occupied and enabled, and it returns that frame's left and right samples |
| AudioEngine.Engine.AddSlot | src/engine/audio.c:52-64 | One visit keeps the running sums and count equal to those of the frame prefix, and the slots showing its cursors |
| AudioEngine.Engine.SumFrame | src/engine/audio.c:48-65 | The slot loop leaves the cursors of `Frame`; its sums are the sides of `Frame`'s reads and the count is their number |
| AudioEngine.Engine.MixFrame | src/engine/audio.c:48-71 | Writes pass samples `2i` and `2i+1` and nothing else, and advances the cursors by one frame |
| AudioEngine.Engine.ClearScratch | src/engine/audio.c:36-39 | Zeroes the first 2048·4 bytes of the scratch buffer and nothing else |
| AudioEngine.Engine.MixFrames | src/engine/audio.c:47-72 | After `n` frames the slots show `Pass(n)`, the first `2n` samples are the pass samples, and the rest of the cleared part is still zero |
| AudioEngine.Engine.MixPass | src/engine/audio.c:36-72 | One pass of `n` frames over the current slots, which must be playable only when `n > 0`: the output is `PassOutput`, the cursors become `Pass`, playable slots stay playable, and only positions, enabled flags and the scratch buffer change |
| AudioEngine.Engine.Mix | src/engine/audio.c:34-74 | Needs playable slots only when it mixes frames, and keeps them playable. Hands over `2 * FramesToWrite` samples (`EnqueuedBytes` bytes), which are `PassOutput` from the slots' snapshot; the channels end at `Pass`; the slots are unchanged, the rest of the cleared buffer is zero, the rest of the scratch buffer is kept, and no `requestEnabled` changes |
| AudioEngine.Engine.Readmit | src/engine/audio.c:142-153 | Re-admission as written: the slots become `Admit(old, list)` and show `AdmittedCursors`; the slots' samples are unchanged; they are playable when `AdmissionPlayable` held; no `requestEnabled` changes |
| AudioEngine.Engine.Update | src/engine/audio.c:138-155 | The tick as written, needing `AdmissionPlayable` only when frames are mixed: the slots become `Admit(old, list)`; the channels end at `Pass` from `AdmittedCursors` (so with no frame to write a re-enabled drained channel stays enabled); it hands over `2 * FramesToWrite` samples (`EnqueuedBytes` bytes), which are `PassOutput` of the admitted slots and their samples, in the scratch buffer, with the rest of the cleared part zero; dropped channels and every `requestEnabled` are unchanged |
| AudioEngine.Engine.ReadmitChecked | src/engine/audio.c:142-153 | Corrected re-admission: the slots become `Admit(old, list)` and show `CheckedCursors`; the slots' samples are unchanged; the slots are playable |
| AudioEngine.Engine.UpdateChecked | src/engine/audio.c:138-155 | Corrected tick: needs `CheckedAdmissionPlayable` on every tick; otherwise it states what `Update` states, from `CheckedCursors`, and the slots are playable afterwards |

## Left out

- `src/modules/ffi.c` and `src/main.c` are not part of this model. They hold
  the foreign-function bridge and the SDL main loop.
- SDL device calls are not modelled: opening, pausing and closing the
  device, `SDL_GetQueuedAudioSize`, `SDL_QueueAudio`, `SDL_LoadWAV` and
  `SDL_FreeWAV`. The backlog is a parameter. The enqueued data is `Mix`'s
  result. The decoded WAV is an input.
- `AUDIO_ENGINE_finalize` only pauses and closes the device and frees the
  scratch buffer, so it is not modelled. `AUDIO_CHANNEL_finalize` has an
  empty body and does nothing.
- The Wren slot plumbing is not modelled. The host list is a sequence, and
  the host's numbers are parameters.
- Floating point is not modelled. Samples are exact reals, so single-precision
  rounding in the normalisation and the sums is absent. With real floats,
  `Quantize(Scale(s))` can be one step off. `tanh` is a function parameter;
  `BoundedClip` states the one property of it that is used.
- Debug printing (`DEBUG_printAudioSpec`, `printf`), the unused
  `audioScale` and `volume` fields, and `dbToVolume`/`volumeToDb` are left
  out. None of them affects the mix.
- The format fields of the device spec (44100 Hz, S16LSB, 2 channels) are
  not modelled; only the buffer size of 2048 frames is.
- Channel ids are `Int16`. The constructor requires the truncated host
  number to fit, because C leaves the conversion undefined otherwise.
- AudioAsset.Asset.Load: the name is cut to 255 string elements. C cuts
  at 255 bytes, so a path with multi-byte characters is cut elsewhere.
- AudioAsset.Asset.Load: the decoder's sample format is taken to be 16-bit
  signed, which the code assumes without checking. Decoder failure is not
  modelled, since the code does not check for it.
- AudioEngine.Engine.Mix: requires a backlog of at most 2048 frames. Beyond
  that the code enqueues a wrapped length taken from an unmixed buffer;
  `BacklogOverrun` states this instead of `Mix`.
- AudioEngine.Engine.Mix: requires every enabled channel to play a loaded
  asset and to have frames left (`Playable`). The code reads out of bounds
  otherwise. A disabled channel may hold an unloaded asset: it is never
  read, and the model's samples show such an asset as silence. `Mix`
  asks this only when it mixes frames. `Update` passes the same
  obligation, after re-admission, to its caller (`AdmissionPlayable`), also
  only when frames are mixed.
- Positions and indices are unbounded naturals. The `uint32_t` position and
  the `int` loop and buffer indices cannot overflow within the asset sizes
  the decoder produces.

## Findings

| source | as written | input that shows it | evidently intended | confidence | as-written member | corrected member |
|---|---|---|---|---|---|---|
| src/engine/audio.c:148 | Re-admission sets `enabled := requestEnabled` without checking the position, so a drained channel (`position == length`, not enabled, `requestEnabled` still the default `true`) is enabled again by the tick (`Update`) | That channel listed again as the first entry of the host list: the next pass reads frame `length` of its asset at lines 56-61, past the buffer's `2*length` samples | A drained channel stays finished; re-admission enables only channels with frames left | not executed | AudioEngine.RelistedDrainedReadsPastEnd | AudioEngine.Engine.UpdateChecked |
