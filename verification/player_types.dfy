/** The player-facing records shared by the controllers and the UI state
    (src/player/traits.rs). */
module Player {
  import opened Wrappers

  datatype PlayerState = Playing | Paused | Stopped

  datatype RepeatMode = Off | Playlist | Single

  /** What a controller reports about the current track. */
  datatype TrackInfo = TrackInfo(
    name: string,
    artist: string,
    album: string,
    artworkUrl: Option<string>,
    durationMs: nat,
    positionMs: nat,
    state: PlayerState,
    source: string,
    volume: Option<nat>)
}
