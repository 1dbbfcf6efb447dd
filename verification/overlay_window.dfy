/** The overlay window's display state: what the labels show, whether the
    local progress timer runs, which album art was last asked for, and where
    the window sits on the screen. Qt calls become fields: `show`/`hide`
    set `visible`, `setText` sets the label texts, the progress bar's
    `setValue` sets `barValue`, and starting an art loader appends the URL
    and the requested size to the ghost log `artRequests`. */
module Overlay {
  import opened Models
  import Strings

  const WindowWidth := 330
  const WindowHeight := 82
  const TitleMaxLen := 30
  const ArtistMaxLen := 40
  const TickMs := 1000

  const Ellipsis: char := '\U{2026}'

  /** `_truncate_text`: a text no longer than the limit is kept; a longer
      one is cut at the limit, stripped of trailing whitespace, and followed
      by an ellipsis. */
  function Truncate(text: string, maxLength: nat): (r: string)
    ensures |r| <= maxLength + 1
    ensures |text| <= maxLength ==> r == text
  {
    if |text| > maxLength then Strings.RStrip(text[..maxLength]) + [Ellipsis] else text
  }

  /** A longer text becomes a prefix of at most `maxLength` characters that
      does not end in whitespace (only whitespace was cut between it and the
      limit), followed by an ellipsis. */
  lemma TruncateCutsAtSpace(text: string, maxLength: nat)
    requires |text| > maxLength
    ensures var r := Truncate(text, maxLength);
      |r| >= 1 && r[|r| - 1] == Ellipsis && |r| - 1 <= maxLength
      && r[..|r| - 1] == text[..|r| - 1]
      && (|r| == 1 || !Strings.IsSpace(r[|r| - 2]))
      && forall i :: |r| - 1 <= i < maxLength ==> Strings.IsSpace(text[i])
  {
    var r := Truncate(text, maxLength);
    assert r[..|r| - 1] == Strings.RStrip(text[..maxLength]);
  }

  /** A truncated text with no whitespace before the limit keeps exactly the
      first `maxLength` characters. */
  lemma {:induction false} TruncateKeepsPrefix(text: string, maxLength: nat)
    requires |text| > maxLength >= 1
    requires !Strings.IsSpace(text[maxLength - 1])
    ensures Truncate(text, maxLength) == text[..maxLength] + [Ellipsis]
  {
  }

  /** The available area of a screen, in pixels. */
  datatype Rect = Rect(x: int, y: int, width: int, height: int)

  /** The coordinate arithmetic of `_position_window`: "top-left" and
      "bottom-left" keep `margin` between the window and the left edge,
      every other position string keeps it to the right edge; "top-left" and
      "top-right" keep it to the top edge, every other string to the bottom
      edge. */
  function WindowOrigin(position: string, area: Rect, frameWidth: int, frameHeight: int, margin: int): (origin: (int, int))
    ensures position in {"top-left", "bottom-left"} ==> origin.0 - area.x == margin
    ensures position !in {"top-left", "bottom-left"} ==> (area.x + area.width) - (origin.0 + frameWidth) == margin
    ensures position in {"top-left", "top-right"} ==> origin.1 - area.y == margin
    ensures position !in {"top-left", "top-right"} ==> (area.y + area.height) - (origin.1 + frameHeight) == margin
  {
    if position == "top-left" then (area.x + margin, area.y + margin)
    else if position == "top-right" then (area.x + area.width - frameWidth - margin, area.y + margin)
    else if position == "bottom-left" then (area.x + margin, area.y + area.height - frameHeight - margin)
    else (area.x + area.width - frameWidth - margin, area.y + area.height - frameHeight - margin)
  }

  /** Every unrecognised position string lands where "bottom-right" does. */
  lemma UnknownPositionIsBottomRight(position: string, area: Rect, frameWidth: int, frameHeight: int, margin: int)
    requires position !in {"top-left", "top-right", "bottom-left"}
    ensures WindowOrigin(position, area, frameWidth, frameHeight, margin)
      == WindowOrigin("bottom-right", area, frameWidth, frameHeight, margin)
  {
  }

  /** With a non-negative margin and a window that fits inside the area with
      that margin on both sides, every corner keeps the window on screen. */
  lemma WindowInsideArea(position: string, area: Rect, frameWidth: int, frameHeight: int, margin: int)
    requires margin >= 0 && frameWidth >= 0 && frameHeight >= 0
    requires frameWidth + 2 * margin <= area.width && frameHeight + 2 * margin <= area.height
    ensures var origin := WindowOrigin(position, area, frameWidth, frameHeight, margin);
      area.x <= origin.0 && origin.0 + frameWidth <= area.x + area.width
      && area.y <= origin.1 && origin.1 + frameHeight <= area.y + area.height
  {
  }

  /** `_update_progress_bar`'s value, computed on exact rationals:
      `int(min(p/d, 1.0) * 100)`, where `int` truncates toward zero. */
  function ProgressPercent(progressMs: int, durationMs: int): (v: int)
    ensures durationMs <= 0 ==> v == 0
    ensures durationMs > 0 && progressMs >= durationMs ==> v == 100
    ensures durationMs > 0 && 0 <= progressMs < durationMs ==> 0 <= v < 100
    ensures durationMs > 0 && progressMs < 0 ==> v <= 0
  {
    if durationMs <= 0 then 0
    else if progressMs >= durationMs then 100
    else if progressMs >= 0 then
      var q := 100 * progressMs / durationMs;
      DivBounds(100 * progressMs, durationMs);
      FactorBelow(q, 100, durationMs);
      q
    else
      -(-100 * progressMs / durationMs)
  }

  /** For a progress short of the duration the value is the whole
      percentage, and for a negative progress it is the negated whole
      percentage of its magnitude: truncation toward zero. */
  lemma ProgressIsWholePercent(progressMs: int, durationMs: int)
    requires durationMs > 0
    ensures var v := ProgressPercent(progressMs, durationMs);
      0 <= progressMs < durationMs ==> v * durationMs <= 100 * progressMs < (v + 1) * durationMs
    ensures var v := ProgressPercent(progressMs, durationMs);
      progressMs < 0 ==> -v * durationMs <= -100 * progressMs < (-v + 1) * durationMs
  {
    if 0 <= progressMs < durationMs {
      DivBounds(100 * progressMs, durationMs);
    } else if progressMs < 0 {
      DivBounds(-100 * progressMs, durationMs);
    }
  }

  /** Euclidean division of a non-negative number by a positive one. */
  lemma DivBounds(n: int, d: int)
    requires n >= 0 && d > 0
    ensures (n / d) * d <= n < (n / d + 1) * d
  {
  }

  /** The bar value never moves backwards while the progress grows. */
  lemma ProgressMonotone(p1: int, p2: int, durationMs: int)
    requires durationMs > 0 && 0 <= p1 <= p2
    ensures ProgressPercent(p1, durationMs) <= ProgressPercent(p2, durationMs)
  {
    var v1 := ProgressPercent(p1, durationMs);
    var v2 := ProgressPercent(p2, durationMs);
    ProgressIsWholePercent(p1, durationMs);
    ProgressIsWholePercent(p2, durationMs);
    if v1 > v2 {
      MulLeft(v2 + 1, v1, durationMs);
    }
  }

  lemma FactorBelow(q: int, k: int, d: int)
    requires d > 0 && q * d < k * d
    ensures q < k
  {
    if q >= k {
      MulLeft(k, q, d);
    }
  }

  lemma MulLeft(a: int, b: int, d: int)
    requires a <= b && d > 0
    ensures a * d <= b * d
  {
  }

  /** The album art URL counts only when it is present and non-empty. */
  predicate HasArtUrl(np: NowPlaying) {
    np.albumArtUrl.Some? && np.albumArtUrl.value != ""
  }

  class OverlayWindow {
    var config: AppConfig
    var userVisibilityState: bool
    var isPlaying: bool
    var lastNp: Option<NowPlaying>
    var lastArtUrl: Option<string>
    var isPositioned: bool
    var progressMs: int
    var durationMs: int
    /** Whether the one-second progress timer runs. */
    var timerActive: bool
    /** The progress bar's value; `None` until it is first set. */
    var barValue: Option<int>
    var barVisible: bool
    var titleText: string
    var artistText: string
    /** Whether the art label holds a picture. */
    var hasArt: bool
    var artLabelSize: int
    var visible: bool
    var x: int
    var y: int
    /** Every art download started: the URL and the size asked for. */
    ghost var artRequests: seq<(string, int)>

    /** The window's invariant: the timer runs exactly while playing, the
        bar shows the percentage of the stored progress, the art label has
        the configured size, and the last art URL is non-empty and is the
        URL of the latest download, at the current size. */
    ghost predicate Valid()
      reads this
    {
      timerActive == isPlaying
      && (barValue.Some? ==> barValue.value == ProgressPercent(progressMs, durationMs))
      && artLabelSize == config.ui.artSize
      && (lastArtUrl.Some? ==>
            lastArtUrl.value != "" && |artRequests| > 0
            && artRequests[|artRequests| - 1] == (lastArtUrl.value, artLabelSize))
    }

    /** The window starts shown with the "Connecting" placeholder, not
        playing, with the timer stopped, unpositioned, and with the user's
        visibility choice taken from the shown window. */
    constructor (config: AppConfig)
      ensures Valid()
      ensures this.config == config && artLabelSize == config.ui.artSize
      ensures titleText == "Connecting to Spotify" + [Ellipsis] && artistText == ""
      ensures !barVisible && !hasArt && visible && userVisibilityState
      ensures !isPlaying && !timerActive && lastNp == None && lastArtUrl == None
      ensures !isPositioned && progressMs == 0 && durationMs == 0 && barValue == None
      ensures artRequests == []
    {
      this.config := config;
      userVisibilityState := true;
      isPlaying := false;
      lastNp := None;
      lastArtUrl := None;
      isPositioned := false;
      progressMs := 0;
      durationMs := 0;
      timerActive := false;
      barValue := None;
      barVisible := true;
      titleText := "Title";
      artistText := "Artist";
      hasArt := false;
      artLabelSize := config.ui.artSize;
      visible := false;
      x := 0;
      y := 0;
      artRequests := [];
      new;
      ShowPlaceholder("Connecting to Spotify" + [Ellipsis]);
      userVisibilityState := visible;
    }

    /** `show_placeholder`: the message in the title, an empty artist, no
        progress bar, no art, and the window shown. */
    method ShowPlaceholder(text: string)
      modifies this`titleText, this`artistText, this`barVisible, this`hasArt, this`visible
      ensures titleText == text && artistText == ""
      ensures !barVisible && !hasArt && visible
    {
      titleText := text;
      artistText := "";
      barVisible := false;
      hasArt := false;
      visible := true;
    }

    /** `get_last_now_playing`: what the tray replays when the overlay is
        shown again. */
    function LastNowPlaying(): (np: Option<NowPlaying>)
      reads this`lastNp
      ensures np == lastNp
    {
      lastNp
    }

    /** `_start_progress_timer`: starts the timer unless it already runs. */
    method StartProgressTimer()
      modifies this`timerActive
      ensures timerActive
    {
      if !timerActive {
        timerActive := true;
      }
    }

    /** `_stop_progress_timer`: stops the timer if it runs. */
    method StopProgressTimer()
      modifies this`timerActive
      ensures !timerActive
    {
      if timerActive {
        timerActive := false;
      }
    }

    /** `_update_progress_bar` */
    method UpdateProgressBar()
      modifies this`barValue
      ensures barValue == Some(ProgressPercent(progressMs, durationMs))
      ensures 0 <= progressMs ==> 0 <= barValue.value <= 100
    {
      barValue := Some(ProgressPercent(progressMs, durationMs));
    }

    /** `_update_progress_from_spotify`: takes the reported position and
        redraws the bar. */
    method UpdateProgressFromSpotify(progress: int, duration: int)
      modifies this`progressMs, this`durationMs, this`barValue
      ensures progressMs == progress && durationMs == duration
      ensures barValue == Some(ProgressPercent(progress, duration))
    {
      progressMs, durationMs := progress, duration;
      UpdateProgressBar();
    }

    /** The playing branch of `set_now_playing`: the truncated texts, the
        bar with the reported progress, and the art. A new, non-empty art
        URL starts one download and becomes the last URL; a missing or
        empty one clears the art; a repeated one changes nothing. */
    method ShowTrack(track: NowPlaying)
      requires Valid()
      modifies this`titleText, this`artistText, this`barVisible, this`progressMs, this`durationMs,
        this`barValue, this`lastArtUrl, this`artRequests, this`hasArt, this`visible
      ensures Valid()
      ensures visible && barVisible
      ensures titleText == Truncate(track.title, TitleMaxLen)
      ensures artistText == Truncate(track.artist, ArtistMaxLen)
      ensures progressMs == track.progressMs && durationMs == track.durationMs
      ensures barValue == Some(ProgressPercent(progressMs, durationMs))
      ensures HasArtUrl(track) && track.albumArtUrl != old(lastArtUrl) ==>
        lastArtUrl == track.albumArtUrl && hasArt == old(hasArt)
        && artRequests == old(artRequests) + [(track.albumArtUrl.value, artLabelSize)]
      ensures HasArtUrl(track) && track.albumArtUrl == old(lastArtUrl) ==>
        lastArtUrl == old(lastArtUrl) && artRequests == old(artRequests) && hasArt == old(hasArt)
      ensures !HasArtUrl(track) ==>
        lastArtUrl == old(lastArtUrl) && artRequests == old(artRequests) && !hasArt
    {
      ShowTexts(track);
      barVisible := true;
      UpdateProgressFromSpotify(track.progressMs, track.durationMs);
      ShowArt(track);
      visible := true;
    }

    /** The labels of the playing branch of `set_now_playing`. */
    method ShowTexts(track: NowPlaying)
      modifies this`titleText, this`artistText
      ensures titleText == Truncate(track.title, TitleMaxLen)
      ensures artistText == Truncate(track.artist, ArtistMaxLen)
    {
      titleText := Truncate(track.title, TitleMaxLen);
      artistText := Truncate(track.artist, ArtistMaxLen);
    }

    /** The art part of the playing branch of `set_now_playing`. */
    method ShowArt(track: NowPlaying)
      requires Valid()
      modifies this`lastArtUrl, this`artRequests, this`hasArt
      ensures Valid()
      ensures HasArtUrl(track) && track.albumArtUrl != old(lastArtUrl) ==>
        lastArtUrl == track.albumArtUrl && hasArt == old(hasArt)
        && artRequests == old(artRequests) + [(track.albumArtUrl.value, artLabelSize)]
      ensures HasArtUrl(track) && track.albumArtUrl == old(lastArtUrl) ==>
        lastArtUrl == old(lastArtUrl) && artRequests == old(artRequests) && hasArt == old(hasArt)
      ensures !HasArtUrl(track) ==>
        lastArtUrl == old(lastArtUrl) && artRequests == old(artRequests) && !hasArt
    {
      if HasArtUrl(track) && track.albumArtUrl != lastArtUrl {
        lastArtUrl := track.albumArtUrl;
        artRequests := artRequests + [(track.albumArtUrl.value, config.ui.artSize)];
      } else if !HasArtUrl(track) {
        hasArt := false;
      }
    }

    /** The first half of `set_now_playing`: stores the snapshot and starts
        or stops the progress timer when the playing flag changes, so that
        the timer runs exactly while a snapshot that is playing is held. */
    method RecordPlayback(np: Option<NowPlaying>)
      requires Valid()
      modifies this`lastNp, this`isPlaying, this`timerActive
      ensures Valid()
      ensures lastNp == np && LastNowPlaying() == np
      ensures isPlaying == (np.Some? && np.value.isPlaying) && timerActive == isPlaying
    {
      lastNp := np;
      var isNowPlaying := np.Some? && np.value.isPlaying;
      if isPlaying != isNowPlaying {
        isPlaying := isNowPlaying;
        if isPlaying {
          StartProgressTimer();
        } else {
          StopProgressTimer();
        }
      }
    }

    /** `set_now_playing`: stores the state, starts or stops the timer on a
        change of the playing flag, and then hides the window (the user hid
        it: nothing else changes; nothing plays: the last art URL is
        forgotten) or shows the track. */
    method SetNowPlaying(np: Option<NowPlaying>)
      requires Valid()
      modifies this`lastNp, this`isPlaying, this`timerActive,
        this`titleText, this`artistText, this`barVisible, this`progressMs, this`durationMs,
        this`barValue, this`lastArtUrl, this`artRequests, this`hasArt, this`visible
      ensures Valid()
      ensures lastNp == np && LastNowPlaying() == np
      ensures isPlaying == (np.Some? && np.value.isPlaying)
      ensures !userVisibilityState ==>
        !visible && lastArtUrl == old(lastArtUrl) && artRequests == old(artRequests)
        && titleText == old(titleText) && artistText == old(artistText)
        && barVisible == old(barVisible) && hasArt == old(hasArt)
        && progressMs == old(progressMs) && durationMs == old(durationMs) && barValue == old(barValue)
      ensures userVisibilityState && !isPlaying ==>
        !visible && lastArtUrl == None && artRequests == old(artRequests)
        && titleText == old(titleText) && artistText == old(artistText)
        && barVisible == old(barVisible) && hasArt == old(hasArt)
        && progressMs == old(progressMs) && durationMs == old(durationMs) && barValue == old(barValue)
      ensures userVisibilityState && isPlaying ==>
        visible && barVisible
        && titleText == Truncate(np.value.title, TitleMaxLen)
        && artistText == Truncate(np.value.artist, ArtistMaxLen)
        && progressMs == np.value.progressMs && durationMs == np.value.durationMs
        && barValue == Some(ProgressPercent(progressMs, durationMs))
      ensures userVisibilityState && isPlaying && HasArtUrl(np.value) && np.value.albumArtUrl != old(lastArtUrl) ==>
        lastArtUrl == np.value.albumArtUrl && hasArt == old(hasArt)
        && artRequests == old(artRequests) + [(np.value.albumArtUrl.value, artLabelSize)]
      ensures userVisibilityState && isPlaying && HasArtUrl(np.value) && np.value.albumArtUrl == old(lastArtUrl) ==>
        lastArtUrl == old(lastArtUrl) && artRequests == old(artRequests) && hasArt == old(hasArt)
      ensures userVisibilityState && isPlaying && !HasArtUrl(np.value) ==>
        lastArtUrl == old(lastArtUrl) && artRequests == old(artRequests) && !hasArt
    {
      RecordPlayback(np);
      if !userVisibilityState {
        visible := false;
        return;
      }
      if isPlaying && np.Some? {
        ShowTrack(np.value);
      } else {
        visible := false;
        lastArtUrl := None;
      }
    }

    /** The tray's visibility toggle: records the user's choice; showing
        again replays the last state through `set_now_playing`, hiding hides
        the window and keeps everything else. */
    method SetUserVisibility(wantVisible: bool)
      requires Valid()
      modifies this`userVisibilityState, this`lastNp, this`isPlaying, this`timerActive,
        this`titleText, this`artistText, this`barVisible, this`progressMs, this`durationMs,
        this`barValue, this`lastArtUrl, this`artRequests, this`hasArt, this`visible
      ensures Valid()
      ensures userVisibilityState == wantVisible && LastNowPlaying() == old(LastNowPlaying())
      ensures !wantVisible ==>
        !visible && isPlaying == old(isPlaying) && timerActive == old(timerActive)
        && lastArtUrl == old(lastArtUrl) && artRequests == old(artRequests)
        && titleText == old(titleText) && artistText == old(artistText)
        && barVisible == old(barVisible) && hasArt == old(hasArt)
        && progressMs == old(progressMs) && durationMs == old(durationMs) && barValue == old(barValue)
      ensures wantVisible ==> visible == (lastNp.Some? && lastNp.value.isPlaying)
      ensures wantVisible && !isPlaying ==>
        !visible && lastArtUrl == None && artRequests == old(artRequests)
        && titleText == old(titleText) && artistText == old(artistText)
        && barVisible == old(barVisible) && hasArt == old(hasArt)
        && progressMs == old(progressMs) && durationMs == old(durationMs) && barValue == old(barValue)
      ensures wantVisible && isPlaying ==>
        visible && barVisible && timerActive
        && titleText == Truncate(lastNp.value.title, TitleMaxLen)
        && artistText == Truncate(lastNp.value.artist, ArtistMaxLen)
        && progressMs == lastNp.value.progressMs && durationMs == lastNp.value.durationMs
        && barValue == Some(ProgressPercent(progressMs, durationMs))
      ensures wantVisible && isPlaying && HasArtUrl(lastNp.value) && lastNp.value.albumArtUrl != old(lastArtUrl) ==>
        lastArtUrl == lastNp.value.albumArtUrl && hasArt == old(hasArt)
        && artRequests == old(artRequests) + [(lastNp.value.albumArtUrl.value, artLabelSize)]
      ensures wantVisible && isPlaying && HasArtUrl(lastNp.value) && lastNp.value.albumArtUrl == old(lastArtUrl) ==>
        lastArtUrl == old(lastArtUrl) && artRequests == old(artRequests) && hasArt == old(hasArt)
      ensures wantVisible && isPlaying && !HasArtUrl(lastNp.value) ==>
        lastArtUrl == old(lastArtUrl) && artRequests == old(artRequests) && !hasArt
    {
      userVisibilityState := wantVisible;
      if wantVisible {
        SetNowPlaying(LastNowPlaying());
      } else {
        visible := false;
      }
    }

    /** `_on_art_loaded`: a finished download fills the art label. */
    method OnArtLoaded()
      requires Valid()
      modifies this`hasArt
      ensures Valid()
      ensures hasArt
    {
      hasArt := true;
    }

    /** `clear_ui`: the "Re-authenticating" placeholder, no last state, no
        last art URL, not playing and the timer stopped. The progress and
        the user's visibility choice are kept. */
    method ClearUi()
      requires Valid()
      modifies this
      ensures Valid()
      ensures titleText == "Re-authenticating..." && artistText == ""
      ensures !barVisible && !hasArt && visible
      ensures lastNp == None && lastArtUrl == None && !isPlaying && !timerActive
      ensures LastNowPlaying() == None
      ensures config == old(config) && artLabelSize == old(artLabelSize)
      ensures userVisibilityState == old(userVisibilityState)
      ensures progressMs == old(progressMs) && durationMs == old(durationMs) && barValue == old(barValue)
      ensures isPositioned == old(isPositioned) && x == old(x) && y == old(y)
      ensures artRequests == old(artRequests)
    {
      ShowPlaceholder("Re-authenticating...");
      lastNp := None;
      lastArtUrl := None;
      isPlaying := false;
      StopProgressTimer();
    }

    /** `_progress_tick`: one timer tick advances the progress by a second,
        but only while playing a track of non-zero duration. */
    method ProgressTick()
      requires Valid()
      modifies this`progressMs, this`barValue
      ensures Valid()
      ensures !isPlaying || durationMs == 0 ==>
        progressMs == old(progressMs) && barValue == old(barValue)
      ensures isPlaying && durationMs != 0 ==>
        progressMs == old(progressMs) + TickMs
        && barValue == Some(ProgressPercent(progressMs, durationMs))
    {
      if !isPlaying || durationMs == 0 {
        return;
      }
      progressMs := progressMs + TickMs;
      UpdateProgressBar();
    }

    /** `_position_window`: with no screen nothing happens; otherwise the
        window moves to the configured corner of the screen's available area
        and counts as positioned. */
    method PositionWindow(screen: Option<Rect>, frameWidth: int, frameHeight: int)
      requires Valid()
      modifies this`x, this`y, this`isPositioned
      ensures Valid()
      ensures screen.None? ==> x == old(x) && y == old(y) && isPositioned == old(isPositioned)
      ensures screen.Some? ==>
        (x, y) == WindowOrigin(config.ui.position, screen.value, frameWidth, frameHeight, config.ui.margin)
        && isPositioned
    {
      if screen.None? {
        return;
      }
      var origin := WindowOrigin(config.ui.position, screen.value, frameWidth, frameHeight, config.ui.margin);
      x, y := origin.0, origin.1;
      isPositioned := true;
    }

    /** `on_config_changed`: takes the new configuration, resizes the art
        label, downloads the last art again when its size changed, and
        re-positions the window when it is shown. */
    method OnConfigChanged(newConfig: AppConfig, screen: Option<Rect>, frameWidth: int, frameHeight: int)
      requires Valid()
      modifies this`config, this`artLabelSize, this`artRequests, this`isPositioned, this`x, this`y
      ensures Valid()
      ensures config == newConfig && artLabelSize == newConfig.ui.artSize
      ensures old(artLabelSize) != newConfig.ui.artSize && old(lastArtUrl).Some? ==>
        artRequests == old(artRequests) + [(old(lastArtUrl).value, newConfig.ui.artSize)]
      ensures !(old(artLabelSize) != newConfig.ui.artSize && old(lastArtUrl).Some?) ==>
        artRequests == old(artRequests)
      ensures visible == old(visible) && lastArtUrl == old(lastArtUrl) && lastNp == old(lastNp)
      ensures isPlaying == old(isPlaying) && timerActive == old(timerActive)
      ensures titleText == old(titleText) && artistText == old(artistText) && hasArt == old(hasArt)
      ensures progressMs == old(progressMs) && durationMs == old(durationMs) && barValue == old(barValue)
      ensures userVisibilityState == old(userVisibilityState) && barVisible == old(barVisible)
      ensures !visible ==> !isPositioned && x == old(x) && y == old(y)
      ensures visible && screen.Some? ==>
        isPositioned && (x, y) == WindowOrigin(newConfig.ui.position, screen.value, frameWidth, frameHeight, newConfig.ui.margin)
      ensures visible && screen.None? ==> !isPositioned && x == old(x) && y == old(y)
    {
      ResizeArt(newConfig);
      isPositioned := false;
      if visible {
        PositionWindow(screen, frameWidth, frameHeight);
      }
    }

    /** The art part of `on_config_changed`: a changed size downloads the
        last art again at the new size. */
    method ResizeArt(newConfig: AppConfig)
      requires Valid()
      modifies this`config, this`artLabelSize, this`artRequests
      ensures Valid()
      ensures config == newConfig && artLabelSize == newConfig.ui.artSize
      ensures old(artLabelSize) != newConfig.ui.artSize && lastArtUrl.Some? ==>
        artRequests == old(artRequests) + [(lastArtUrl.value, newConfig.ui.artSize)]
      ensures !(old(artLabelSize) != newConfig.ui.artSize && lastArtUrl.Some?) ==>
        artRequests == old(artRequests)
    {
      config := newConfig;
      var artSizeChanged := artLabelSize != newConfig.ui.artSize;
      artLabelSize := newConfig.ui.artSize;
      if artSizeChanged && lastArtUrl.Some? && lastArtUrl.value != "" {
        artRequests := artRequests + [(lastArtUrl.value, config.ui.artSize)];
      }
    }
  }
}
