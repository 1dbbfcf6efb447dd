# Spoverlay core, modelled in Dafny

Spoverlay is a Qt tray overlay that shows the track Spotify is playing. This
project models the sequential logic under its widgets and threads:

- **Poller** (`SpotifyClient`). It converts a "currently playing" response into a `NowPlaying` snapshot and fetches with at most two attempts. Each polling pass is debounced: a snapshot is emitted only when it differs from the last one. After each pass it sleeps adaptively. It also keeps the start / stop / relogin / initial-fetch bookkeeping.
- **Global hotkey matcher** (`HotkeyManager`). It parses a `"ctrl+shift+f7"` string into a target key set, all or nothing. It tracks the held keys and fires on exact set equality.
- **Hotkey recorder** (`HotkeyRecorder`). It maps Qt key codes to tokens and writes `CTRL+SHIFT+ALT+WIN+KEY` text.
- **Overlay window's display state** (`Overlay`). It covers:
  - label truncation;
  - corner placement;
  - the playing flag and its one-second progress timer;
  - the last snapshot and the last album-art URL;
  - the progress bar.
- **Configuration loader** (`Config`). It covers:
  - the defaults and the data directory;
  - the layout the file is saved in;
  - the key-by-key merge of a parsed TOML document onto the defaults.
- **Value records** (`Models`) shared by all of the above, plus the text primitives they use (`Strings`): Python's `split`, `join`, `lower`, `rstrip`, `strip` and `str(int)`.

Each Python class whose fields change becomes a Dafny `class` with those fields. Its methods carry `modifies` clauses and postconditions that state the whole new state. The signals a class emits, and the side effects it starts, are appended to a ghost log:
- `Poller.trace` records emitted snapshots, clear-UI requests, stop requests, cache removals and poller starts.
- `OverlayWindow.artRequests` records album-art downloads.
- `GlobalHotkeyManager.triggers` counts hotkey firings.

The pure pieces become functions. Their properties are proved in their contracts or in lemmas beside them: round trips, invariants, and agreement with reference definitions or independent tables. Plain getters are pinned down by the operations that set what they read.

The outside world becomes arguments:
- **Remote API.** Each attempt's outcome is an `Attempt` value: an answer, a `SpotifyException`, or another exception.
- **Threads.** A thread's liveness is a flag. Whether `join(timeout=2.0)` returned in time is a boolean argument.
- **Sleeps.** A sleep is the number of milliseconds returned.
- **pynput.** `keyboard.Key[name]` is a predicate `isKeyName` on the lower-cased part.
- **Files.** The configuration file is `Missing`, `Undecodable`, or `Parsed(doc)`. Saving is the document returned for writing.
- **Environment.** The platform string, the environment variables and the home directory are arguments.

The configuration records use the `client` schema: `AppConfig.client.{clientId, redirectUri, pollIntervalMs}`. This is the schema that overlay/core/config.py:35-39 builds and overlay/core/spotify_client.py:40 reads. overlay/core/models.py:3-23 declares a different one: `AppConfig.spotify`, holding only `client_id` and `redirect_uri`, with a root-level `poll_interval_ms`. The code that runs uses `client`, so the model follows the code.

## Model

| member | source | states |
|---|---|---|
| Strings.Split | overlay/core/hotkey_manager.py:44 | `str.split` on one character: at least one part, and no part contains the separator |
| Strings.JoinSplit | overlay/core/hotkey_manager.py:44 | Joining the parts of a split with the separator gives back the original text |
| Strings.SplitJoin | overlay/core/hotkey_recorder.py:70 | Joining separator-free parts with the separator and splitting again gives back the same parts |
| Strings.Lower | overlay/core/hotkey_manager.py:41 | `str.lower` keeps the length and lower-cases each ASCII letter in place |
| Strings.LowerIdempotent | overlay/core/hotkey_manager.py:41 | Lower-casing twice is the same as lower-casing once |
| Strings.RStrip | overlay/ui/overlay_window.py:56 | `rstrip()` keeps the longest prefix that does not end in whitespace, and everything it removes is whitespace |
| Strings.NatToDecimal | overlay/core/hotkey_recorder.py:81 | `str(n)` is a non-empty run of decimal digits |
| Models.NowPlayingEquality | overlay/core/models.py:25-33 | Two snapshots are equal exactly when all seven fields are equal; the poller's change test uses this equality |
| SpotifyClient.CreditedNames | overlay/core/spotify_client.py:97 | The names the artist generator keeps: never empty, and no more of them than there are entries |
| SpotifyClient.CreditedNamesAppend | overlay/core/spotify_client.py:97 | The generator keeps the order of the entries: filtering a concatenation gives the concatenation of the filtered parts |
| SpotifyClient.CreditedNamesExact | overlay/core/spotify_client.py:97 | Every kept name belongs to an entry, and every truthy entry with a non-empty name contributes its name; the result is empty exactly when no entry qualifies |
| SpotifyClient.Convert | overlay/core/spotify_client.py:89-104 | A missing response, or one whose item is missing or empty, gives "nothing playing". A snapshot comes only from a truthy item, and a truthy item never gives "nothing playing": it gives a snapshot or raises |
| SpotifyClient.ConvertFields | overlay/core/spotify_client.py:92-103 | A truthy item gives a snapshot exactly when its first image, if any, has a URL key, and raises otherwise. The artist is the ", "-join of the credited names. The art URL is the first image's URL: none when there are no images or the URL is null, and indexing an image without a URL raises. The title, album, playing flag, progress and duration are copied when present and take their defaults ("", "", not playing, 0, 0) when absent |
| SpotifyClient.OutcomeOf | overlay/core/spotify_client.py:88-109 | A SpotifyException fails the attempt and waits 1000 ms; any other exception fails it with no wait. An answer fails the attempt, with no wait, exactly when its conversion raises (a first image without "url"). Otherwise it ends the loop: with nothing playing for a missing response or a missing or empty item, and with the converted snapshot otherwise |
| SpotifyClient.ClampInterval | overlay/core/spotify_client.py:40 | `max(0.25 s, ms)`: at least 250 ms, at least the configured value, and equal to one of the two |
| SpotifyClient.Emits | overlay/core/spotify_client.py:134 | Emitting a list of snapshots logs one `Emit` per snapshot, in order |
| SpotifyClient.EmitsAppend | overlay/core/spotify_client.py:134 | Emitting two lists one after the other is the same as emitting their concatenation |
| SpotifyClient.DebounceNoStutter | overlay/core/spotify_client.py:132-135 | No emission equals the one before it, and the first differs from the starting state |
| SpotifyClient.DebounceSettles | overlay/core/spotify_client.py:132-135 | After a run of passes, the last emitted state (or the start, when nothing was emitted) is the last fetched state |
| SpotifyClient.DebounceConstantRun | overlay/core/spotify_client.py:132-135 | A run of equal fetches emits once if it differs from the start, and otherwise emits nothing |
| SpotifyClient.DebounceScenario | overlay/core/spotify_client.py:132-135 | Starting from "nothing playing", the fetches X, X, nothing, Y emit exactly X, nothing, Y |
| SpotifyClient.DebounceExtend | overlay/core/spotify_client.py:127-135 | One more pass adds that pass's fetch to the emissions exactly when it differs from the latest state |
| SpotifyClient.Poller.constructor | overlay/core/spotify_client.py:33-53 | The client object exists only when a Client ID is set and its construction succeeds, so a ready client is always configured (`IsConfigured`, a non-empty Client ID). The poll interval is clamped. There is no poller and no last state |
| SpotifyClient.Poller.UpdateCredentials | overlay/core/spotify_client.py:50-60 | Only the Client ID field of the configuration changes, and `IsConfigured` then holds exactly when the new ID is non-empty. The client becomes ready if construction succeeds, or stays ready if it already was |
| SpotifyClient.Poller.GetCurrent | overlay/core/spotify_client.py:78-111 | With no client: nothing playing, no call. Otherwise at most two calls. A retry follows only a failed attempt. The waits add up to 1000 ms per SpotifyException. Two failures give "nothing playing" |
| SpotifyClient.Poller.StartPolling | overlay/core/spotify_client.py:113-123 | A no-op without a client or while a poller is alive. Otherwise clears the stop flag and starts exactly one poller |
| SpotifyClient.Poller.Step | overlay/core/spotify_client.py:127-138 | With the stop flag set, the poller exits. Otherwise the fetched state is emitted iff it differs from the last state, then becomes the last state; the sleep is 2000 ms when idle and the clamped interval while playing |
| SpotifyClient.Poller.RunPollingLoop | overlay/core/spotify_client.py:125-138 | Over any sequence of remote answers, the emissions are exactly the debounced fetch results. The last state is the latest fetch, and the sleeps are exactly `SleepsAfter` of the fetches |
| SpotifyClient.FetchesAt | overlay/core/spotify_client.py:132 | Pass i of the loop fetches the state that the i-th pair of remote answers yields |
| SpotifyClient.SleepsAfterEach | overlay/core/spotify_client.py:137 | The sleep after each pass is the poll interval when that pass found a playing track, and 2000 ms otherwise (nothing playing, paused, or an error) |
| SpotifyClient.PollingPass | overlay/core/spotify_client.py:132-137 | One pass extends the emission trace, the latest state and the sleep list exactly as the debounced model over one more fetch |
| SpotifyClient.Poller.Stop | overlay/core/spotify_client.py:140-145 | Sets the stop flag. The poller is gone unless the join timed out |
| SpotifyClient.Poller.Relogin | overlay/core/spotify_client.py:147-168 | Without a client, nothing happens. Otherwise, in order: stop, one clear-UI request, forget the last state, remove the cache if present (a failed removal is ignored), restart polling. After a timed-out join the old poller survives and the stop flag stays set |
| SpotifyClient.Poller.InitialFetchAndEmit | overlay/core/spotify_client.py:170-181 | With a client, the fetched state is emitted unconditionally, even "nothing playing", and remembered |
| SpotifyClient.Poller.OnConfigChanged | overlay/core/spotify_client.py:183-188 | Adopts the new configuration, so `IsConfigured` follows its Client ID. The interval becomes at least 250 ms and at least the configured value; everything else is kept |
| HotkeyManager.ParsePart | overlay/core/hotkey_manager.py:46-54 | A part fails exactly when it is neither a key name nor one character long |
| HotkeyManager.ParsePartsAllOrNothing | overlay/core/hotkey_manager.py:45-55 | The parts parse exactly when every part does. The target is then the set of their keys |
| HotkeyManager.ParsePartsSnoc | overlay/core/hotkey_manager.py:45-55 | Parsing one more part adds its key, or fails |
| HotkeyManager.ParsePrefixFails | overlay/core/hotkey_manager.py:51-54 | Once a prefix fails, the whole string fails: keys added earlier are discarded |
| HotkeyManager.SamePartsSameTarget | overlay/core/hotkey_manager.py:45-55 | The target depends only on which parts occur, not on their order or on repeats |
| HotkeyManager.InvalidPartEmptiesTarget | overlay/core/hotkey_manager.py:49-54 | One invalid part anywhere, an empty one included, empties the whole target |
| HotkeyManager.ValidTargetNonEmpty | overlay/core/hotkey_manager.py:44-55 | A string whose parts are all valid yields the non-empty set of their keys |
| HotkeyManager.CaseInsensitive | overlay/core/hotkey_manager.py:41 | Strings that differ only in letter case give the same target |
| HotkeyManager.ThreePartScenario | overlay/core/hotkey_manager.py:41-55 | "ctrl+shift+f7" gives exactly three distinct keys |
| HotkeyManager.InvalidNameScenario | overlay/core/hotkey_manager.py:49-54 | "ctrl+@@" gives the empty target |
| HotkeyManager.EmptyPartScenario | overlay/core/hotkey_manager.py:44-54 | "a++b" gives the empty target because of its empty middle part |
| HotkeyManager.FiringRules | overlay/core/hotkey_manager.py:62-74 | Releases never fire. A press that leaves a strict superset of the target held never fires. A repeated press while exactly the target is held fires again |
| HotkeyManager.FiredAt | overlay/core/hotkey_manager.py:62-74 | In any event sequence, the i-th event fires exactly when it is a press that makes the keys held after the earlier events equal the target |
| HotkeyManager.PressScenario | overlay/core/hotkey_manager.py:62-74 | With target {A, B}, the events press A, press C, release C, press B fire once, on the last press |
| HotkeyManager.GlobalHotkeyManager.constructor | overlay/core/hotkey_manager.py:22-33 | Both key sets start empty. The target is then parsed from the variable, defaulting to "f7" |
| HotkeyManager.GlobalHotkeyManager.ParseHotkeyFromEnv | overlay/core/hotkey_manager.py:35-60 | The loop adds each part's key to the target. An invalid part clears the target |
| HotkeyManager.GlobalHotkeyManager.OnPress | overlay/core/hotkey_manager.py:62-67 | Adds the key. Fires, and counts a trigger, exactly when the held set then equals the target |
| HotkeyManager.GlobalHotkeyManager.OnRelease | overlay/core/hotkey_manager.py:69-74 | Removes the key if it is held; otherwise nothing changes |
| HotkeyManager.GlobalHotkeyManager.StartListener | overlay/core/hotkey_manager.py:76-86 | An empty target starts nothing. Otherwise one more listener runs, beside any already running, and it becomes the newest |
| HotkeyManager.GlobalHotkeyManager.StopListener | overlay/core/hotkey_manager.py:88-92 | Only the newest listener is stopped, so after two starts one listener keeps running. Stopping again changes nothing |
| HotkeyRecorder.MapQtKey | overlay/core/hotkey_recorder.py:74-114 | Every token is non-empty and contains no "+" |
| HotkeyRecorder.FunctionKeyTokens | overlay/core/hotkey_recorder.py:80-81 | Each of F1..F12 maps to its own name in the table "F1", "F2", ..., "F12", by its offset from F1 |
| HotkeyRecorder.MapQtKeyTokens | overlay/core/hotkey_recorder.py:84-112 | Each of A..Z maps to the pressed capital letter and each of 0..9 to the pressed digit, by offset into "ABC...Z" and "0123456789". Return and Enter map to "ENTER". Escape, Backspace, Delete and the bare modifiers have no token |
| HotkeyRecorder.ModifierNames | overlay/core/hotkey_recorder.py:53-61 | At most four names, each one of CTRL, SHIFT, ALT, WIN |
| HotkeyRecorder.ModifierNamesExact | overlay/core/hotkey_recorder.py:53-61 | A modifier is named exactly when its flag is held |
| HotkeyRecorder.ModifierNamesOrdered | overlay/core/hotkey_recorder.py:53-61 | The names come in the order CTRL, SHIFT, ALT, WIN: each ranks above the one before it, so none repeats |
| HotkeyRecorder.ModifierOrder | overlay/core/hotkey_recorder.py:53-70 | With all four modifiers held, the order is CTRL, SHIFT, ALT, WIN. Shift with Alt gives SHIFT, ALT. With none held, only the token is written |
| HotkeyRecorder.RecordedSplits | overlay/core/hotkey_recorder.py:51-70 | Splitting recorded text on "+" gives back the modifier list followed by the one key token |
| HotkeyRecorder.HotkeyRecorder.KeyPress | overlay/core/hotkey_recorder.py:32-72 | Backspace/Delete clears the text. Escape drops focus and keeps the text. Bare modifiers, and keys without a token, change nothing. Otherwise the text becomes the recorded combination and focus is dropped |
| Overlay.Truncate | overlay/ui/overlay_window.py:54-56 | Text within the limit is kept as is. The result is at most `max`+1 characters |
| Overlay.TruncateCutsAtSpace | overlay/ui/overlay_window.py:54-56 | Longer text becomes a prefix of at most `max` characters with no trailing whitespace (only whitespace was cut before the limit), followed by "…" |
| Overlay.TruncateKeepsPrefix | overlay/ui/overlay_window.py:54-56 | When the character at the limit is not whitespace, exactly the first `max` characters are kept |
| Overlay.WindowOrigin | overlay/ui/overlay_window.py:241-250 | "top-left"/"bottom-left" put the margin to the left edge, all other positions to the right edge. "top-left"/"top-right" put it to the top edge, all others to the bottom edge |
| Overlay.UnknownPositionIsBottomRight | overlay/ui/overlay_window.py:243-250 | Every unrecognised position string is placed exactly like "bottom-right" |
| Overlay.WindowInsideArea | overlay/ui/overlay_window.py:241-250 | A window that fits inside the area with the margin on both sides stays inside the area at every corner |
| Overlay.ProgressPercent | overlay/ui/overlay_window.py:356-363 | 0 when the duration is 0 or less, and 100 once progress reaches the duration. Below that it is 0..99, and it is 0 or less for a negative progress |
| Overlay.ProgressIsWholePercent | overlay/ui/overlay_window.py:356-363 | Short of the duration the value is the whole percentage `v` with `v*d <= 100*p < (v+1)*d`. For a negative progress it is the negated whole percentage of its magnitude, which is truncation toward zero |
| Overlay.ProgressMonotone | overlay/ui/overlay_window.py:356-363 | The bar value never decreases as the progress grows |
| Overlay.OverlayWindow.constructor | overlay/ui/overlay_window.py:114-142 | The window starts shown with the "Connecting to Spotify…" placeholder. It is not playing, the timer is stopped, it is not positioned, and the user's visibility choice is "visible" |
| Overlay.OverlayWindow.ShowPlaceholder | overlay/ui/overlay_window.py:273-280 | Puts the message in the title and empties the artist. Hides the bar, clears the art and shows the window |
| Overlay.OverlayWindow.StartProgressTimer | overlay/ui/overlay_window.py:339-341 | Afterwards the timer runs |
| Overlay.OverlayWindow.StopProgressTimer | overlay/ui/overlay_window.py:343-345 | Afterwards the timer is stopped |
| Overlay.OverlayWindow.UpdateProgressBar | overlay/ui/overlay_window.py:356-363 | The bar shows the percentage of the stored progress, within 0..100 for non-negative progress |
| Overlay.OverlayWindow.UpdateProgressFromSpotify | overlay/ui/overlay_window.py:333-337 | Takes the reported progress and duration, and redraws the bar from them |
| Overlay.OverlayWindow.ShowTrack | overlay/ui/overlay_window.py:307-322 | Title truncated at 30 and artist at 40; the bar is shown with the reported progress. A new non-empty art URL starts one download and becomes the last URL. A missing or empty URL clears the art. A repeated URL starts nothing |
| Overlay.OverlayWindow.ShowTexts | overlay/ui/overlay_window.py:309-310 | The title label shows the title truncated at 30 characters, and the artist label the artist truncated at 40 |
| Overlay.OverlayWindow.ShowArt | overlay/ui/overlay_window.py:314-319 | A new non-empty art URL starts one download at the current size and becomes the last URL. A missing or empty URL clears the art. A repeated URL starts nothing |
| Overlay.OverlayWindow.RecordPlayback | overlay/ui/overlay_window.py:291-300 | Stores the snapshot, which `LastNowPlaying` then returns. Playing holds exactly for a snapshot that is playing, and the timer runs exactly while playing |
| Overlay.OverlayWindow.SetNowPlaying | overlay/ui/overlay_window.py:282-325 | Always stores its argument: `LastNowPlaying` afterwards returns it. Playing holds exactly for a snapshot that is playing. The timer runs exactly while playing. If the user hid the overlay, it hides and changes nothing else. If nothing plays, it hides and forgets the art URL. Otherwise it shows the track as in `ShowTrack` |
| Overlay.OverlayWindow.SetUserVisibility | overlay/ui/tray_icon.py:90-104 | Records the user's choice and keeps what `LastNowPlaying` returns. Showing replays that snapshot as `SetNowPlaying` does. If it is playing, the window shows its truncated title and artist, its progress, the bar and the timer, with the three art cases. Otherwise the window stays hidden and the art URL is forgotten. Hiding hides the window and keeps every other field |
| Overlay.OverlayWindow.OnArtLoaded | overlay/ui/overlay_window.py:327-331 | A finished download fills the art label |
| Overlay.OverlayWindow.ClearUi | overlay/ui/overlay_window.py:203-212 | Shows the "Re-authenticating..." placeholder. Afterwards `LastNowPlaying` returns nothing, there is no last art URL, nothing is playing and the timer is stopped |
| Overlay.OverlayWindow.ProgressTick | overlay/ui/overlay_window.py:347-354 | Adds exactly 1000 ms and redraws the bar, but only while playing with a non-zero duration |
| Overlay.OverlayWindow.PositionWindow | overlay/ui/overlay_window.py:232-256 | Without a screen nothing changes. Otherwise the window moves to `WindowOrigin` of the configured corner and is marked positioned |
| Overlay.OverlayWindow.ResizeArt | overlay/ui/overlay_window.py:380-386 | Takes the new configuration and its art size. The last art is downloaded again, at the new size, exactly when the size changed and an art URL exists |
| Overlay.OverlayWindow.OnConfigChanged | overlay/ui/overlay_window.py:376-394 | Adopts the new configuration and resizes the art. The last art is downloaded again exactly when the size changed and an art URL exists. The window is marked unpositioned, and is re-positioned if shown. The user's visibility choice, the playback state, the texts, the bar and the art are kept |
| Config.ToInt | overlay/core/config.py:101-102 | `int()`: integers are kept, booleans become 1/0, and arrays, dates and tables fail |
| Config.ParseInt | overlay/core/config.py:101 | `int()` of text fails on blank text |
| Config.ParseIntStrips | overlay/core/config.py:101 | Whitespace before and after a literal is ignored: `int()` of the padded text equals the literal's result, success or failure |
| Config.ParseLiteral | overlay/core/config.py:101 | A text is accepted exactly when it is an optional sign followed by digits with single underscores between them. The empty text fails, and a negative value comes only from a leading "-" |
| Config.PositiveLiteral | overlay/core/config.py:101 | A leading "+" keeps the value of the digits after it |
| Config.ParseIntDecimal | overlay/core/config.py:101 | `int(str(i)) == i` for every integer |
| Config.ParseIntUnderscores | overlay/core/config.py:101 | `int("+1_000") == 1000` |
| Config.ParseIntRejects | overlay/core/config.py:101 | "1__0", "10_" and "" are rejected |
| Config.PathJoin | overlay/core/config.py:24-27 | The result starts with the first part and ends with the second. Between them is at most one separator of the platform, none when the first part is empty |
| Config.UserDataDir | overlay/core/config.py:21-27 | The data directory always ends in "Spoverlay"; the base it is joined to is stated by the four DataDir lemmas |
| Config.DataDirFromAppData | overlay/core/config.py:23-27 | On Windows with APPDATA set, for every value of it and every home: the folder is APPDATA followed by "Spoverlay", with a "\" between them unless APPDATA is empty or already ends in "\" or "/" |
| Config.DataDirWindowsFallback | overlay/core/config.py:23-27 | On Windows without APPDATA, for every home: the folder is `AppData\Roaming\Spoverlay` placed `Under` home, that is, after a "\" unless home is empty or already ends in "\" or "/" |
| Config.DataDirXdgFallback | overlay/core/config.py:25-27 | Elsewhere without XDG_CONFIG_HOME, for every home: the folder is `.config/Spoverlay` placed `Under` home, that is, after a "/" unless home is empty or already ends in "/" |
| Config.DataDirFromXdg | overlay/core/config.py:25-27 | Elsewhere with XDG_CONFIG_HOME set, for every value of it, even an empty one: the folder is that value followed by "Spoverlay", with a "/" between them unless the value is empty or already ends in "/" |
| Config.DefaultConfig | overlay/core/config.py:30-44 | Client "", "http://127.0.0.1:8080/callback", 1000 ms. UI top-right, margin 24, click-through on, art 64, hotkey "F7". The config path is inside the data directory and ends in "config.toml" |
| Config.SaveLayout | overlay/core/config.py:47-61 | The saved document has exactly a `client` table {client_id, redirect_uri, poll_interval_ms} and a `ui` table {position, margin, click_through, art_size, hotkey}. The value under `client.poll_interval_ms` is the configured poll interval |
| Config.UiTaken | overlay/core/config.py:99-105 | Only margin or art_size can fail. Either 1, 2 or all 5 `ui` keys are taken |
| Config.LoadConfig | overlay/core/config.py:71-117 | The key-by-key loader returns the reference merge `Loaded` of the defaults and the file. A missing file writes the saved layout of the defaults |
| Config.LoadUiSection | overlay/core/config.py:97-106 | Reading the `ui` keys in order, with a failed integer conversion abandoning the rest of the section, yields the reference merge `MergedUi` |
| Config.LoadClientSection | overlay/core/config.py:108-115 | Reading the `client` keys, with the poll interval taken from the top level of the document, yields the reference merge `MergedClient` |
| Config.DefaultsWhenNothingUsable | overlay/core/config.py:78-95 | A missing file, an undecodable file or an empty document gives exactly the defaults. The directories and the path always come from the defaults |
| Config.NonTableSectionSkipped | overlay/core/config.py:97-109 | A `ui` or `client` entry that is not a table leaves that whole record at its defaults |
| Config.UiKeysOverlay | overlay/core/config.py:97-104 | When the integers convert, each present `ui` key replaces its default after conversion, and each absent key keeps the default |
| Config.MarginFailureStopsUiOnly | overlay/core/config.py:99-115 | A rejected margin keeps the position already read and defaults every later `ui` key. The `client` section is still merged |
| Config.ArtSizeFailureStopsLaterKeys | overlay/core/config.py:99-106 | A rejected art_size keeps position and margin, and defaults art_size, click_through and hotkey even when they are valid |
| Config.PollFailureKeepsEarlierClientKeys | overlay/core/config.py:110-115 | A rejected poll interval keeps the Client ID and redirect already read |
| Config.PollIntervalFromTopLevel | overlay/core/config.py:113 | The poll interval is read from the top level of the document. A value under `client` is ignored |
| Config.SaveLoadRoundTrip | overlay/core/config.py:47-117 | Saving and loading again restores every saved field except the poll interval, which reverts to the default |
| Config.ClickThroughTruthiness | overlay/core/config.py:103 | `bool()` is truthiness: a text is true exactly when non-empty, so "false" counts as true; a number exactly when non-zero; an absent key keeps the default |

## Left out

- Threads, `time.sleep`, `threading.Event`, Qt signals, the Qt event loop and painting are not modelled. Their effects are recorded as flags, returned sleep times and ghost logs.
- spotipy and SpotifyPKCE authentication, the token cache's contents, HTTP, and the album-art download and resize (`ArtLoader`, `ArtLabel`) are not modelled. A remote call is an `Attempt` argument; a download is an entry in `artRequests`.
- The response JSON is a typed record with optional fields. Explicit JSON nulls, and fields of an unexpected type, are modelled only for the item and the image URL.
- pynput's listener and its key enum are not modelled. "Is a key name" is the argument `isKeyName`.
- TOML parsing and dumping, file existence checks and directory creation are not modelled. The file is a `ConfigFile` value. A save is the returned document, assuming that dumping and parsing again gives that same document. A failed save is not modelled.
- The click-through setup, the Hyprland check and the stylesheet loading are not modelled.
- `showEvent`'s positioning deferred through `QTimer.singleShot` is not modelled; `PositionWindow` is the method it would call.
- The window's frame size and the screen's available area are arguments to `PositionWindow`.
- overlay/core/ipc_listener.py, overlay/app.py, overlay/ui/configure_window.py, overlay/ui/setup_window.py and overlay/core/state.py are not part of this model. Neither is the tray menu, apart from the visibility toggle that `SetUserVisibility` models.
- Config records are modelled as values. Aliasing between the configuration object shared by the client, the window and the loader is not captured.
- Overlay.ProgressPercent: computes on exact rationals, not floats. The float expression can come out one lower; for example progress 29 of 100 gives 28. So `UpdateProgressBar` and `ProgressTick` are exact only up to that rounding.
- Overlay.ProgressIsWholePercent: the exact whole percentage holds for the rational model only. The float source can give one less; for example progress 29 of 100 gives 28.
- Overlay.OverlayWindow.UpdateProgressBar: Qt's `setValue` ignores a value outside 0..100, so for a negative progress the real bar keeps its previous value. The model stores the negative percentage.
- Overlay.Truncate: the limit is a natural number. Python's slicing with a negative limit is not modelled, but the window uses only 30 and 40.
- Strings.Lower: lower-cases ASCII letters only. Python's full Unicode case mapping is not modelled.
- Config.ToInt: a TOML float is assumed finite. `int()` of inf raises OverflowError, which `load_config` does not catch. The model also does not cover Python's limit on the number of digits `int()` accepts, or non-ASCII digits.
- Config.PathJoin: every second component in the source is a relative constant, so an absolute second component is not modelled. Neither are Windows drive letters.
- HotkeyManager.GlobalHotkeyManager.StartListener: a second start leaves the first listener running. Each running listener delivers every key event to `OnPress`, so one press of the hotkey emits once per running listener. The model counts the running listeners but `OnPress` models a single delivery.
- SpotifyClient.Poller.Relogin: a removal that fails with an error other than OSError is not modelled.
