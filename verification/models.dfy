/** The value records shared by the client, the overlay window and the
    configuration loader. Python dataclasses become Dafny datatypes: their
    equality is structural, field by field, and an update produces a new
    value that differs from the old one in the named field only. */
module Models {

  datatype Option<+T> = None | Some(value: T)

  /** The "now playing" snapshot. It is frozen in the source; as a datatype
      value it cannot change after construction. "Nothing playing" is
      `None : Option<NowPlaying>`, never a defaulted snapshot. */
  datatype NowPlaying = NowPlaying(
    title: string,
    artist: string,
    album: string,
    albumArtUrl: Option<string>,
    isPlaying: bool,
    progressMs: int,
    durationMs: int)

  /** The `client` section of the configuration. */
  datatype ClientConfig = ClientConfig(clientId: string, redirectUri: string, pollIntervalMs: int)

  /** The `ui` section of the configuration. */
  datatype UiConfig = UiConfig(position: string, margin: int, clickThrough: bool, artSize: int, hotkey: string)

  datatype AppConfig = AppConfig(
    client: ClientConfig,
    ui: UiConfig,
    appDirectory: string,
    dataDirectory: string,
    configPath: string)

  /** Two snapshots are equal exactly when all seven fields are; this is the
      equality the poller's change test uses. */
  lemma NowPlayingEquality(a: NowPlaying, b: NowPlaying)
    ensures a == b <==>
      a.title == b.title && a.artist == b.artist && a.album == b.album
      && a.albumArtUrl == b.albumArtUrl && a.isPlaying == b.isPlaying
      && a.progressMs == b.progressMs && a.durationMs == b.durationMs
  {
  }
}
