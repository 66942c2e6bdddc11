/** One playing instance of an asset: a frame cursor and the two-phase
    enable flags.  `enabled` is what the mixer honours; `requestEnabled` is
    the host's wish, copied into `enabled` only when the engine re-admits the
    channel into a slot. */
module AudioChannel {
  import opened Pcm
  import opened AudioAsset

  class Channel {
    /** Identifier given by the host, stored as a 16-bit integer. */
    const id: Int16
    /** The asset played; shared, never owned or rebound. */
    const asset: Asset
    /** Next stereo frame to read from the asset. */
    var position: nat
    var enabled: bool
    var requestEnabled: bool

    /** Create a channel from the host's numeric id (a double, converted to
        int16_t by truncation, which C defines only when the result fits).
        The cursor starts at 0 because the host hands over zero-filled
        storage for the channel. */
    constructor (hostId: real, asset: Asset)
      requires InInt16(TruncToZero(hostId))
      ensures id == TruncToZero(hostId) && this.asset == asset
      ensures position == 0 && enabled && requestEnabled
    {
      id := TruncToZero(hostId);
      this.asset := asset;
      position := 0;
      enabled := true;
      requestEnabled := true;
    }

    /** A channel is finished exactly when the mixer does not play it. */
    predicate IsFinished()
      reads this
    {
      !enabled
    }

    /** The host's identifier; reads nothing that can change. */
    function GetId(): (r: int)
      ensures InInt16(r) && r == id
    {
      id
    }

    /** Record the host's wish to play or pause.  The mixer is not affected
        until the next re-admission: `enabled` and the cursor are untouched. */
    method SetEnabled(value: bool)
      modifies this`requestEnabled
      ensures requestEnabled == value
      ensures enabled == old(enabled) && position == old(position)
    {
      requestEnabled := value;
    }
  }
}
