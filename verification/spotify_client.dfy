/** The Spotify poller: the conversion of a "currently playing" response into
    a snapshot, the fetch with at most two attempts, and the polling client
    whose loop emits a snapshot only when it differs from the last one and
    sleeps longer while nothing is playing.

    The remote call is an oracle: each attempt is given as an `Attempt`
    (the response it returned, or the kind of exception it raised). The
    background thread is the `pollerAlive` flag, one pass of its loop is
    `Step`, and `time.sleep` becomes the duration a step returns. */
module SpotifyClient {
  import opened Models
  import Strings

  // ---------------------------------------------------------------------
  // The response document. `None` in an `Option` field is an absent key.
  // A JSON null is modelled only where the record says so (the item and the
  // first image's URL); elsewhere a null would raise or be copied as None,
  // and the model does not cover it.

  datatype Artist = Artist(name: Option<string>)

  /** The `url` key of an album image: absent (indexing it raises), null, or text. */
  datatype ImageUrl = UrlMissing | UrlNull | Url(text: string)

  datatype Image = Image(url: ImageUrl)

  datatype Album = Album(name: Option<string>, images: Option<seq<Image>>)

  /** `otherKeys` records whether the item has keys besides these four, which
      matters only for its truthiness (an empty dict is falsy). */
  datatype Item = Item(
    name: Option<string>,
    artists: Option<seq<Option<Artist>>>,
    album: Option<Album>,
    durationMs: Option<int>,
    otherKeys: bool)

  datatype Response = Response(item: Option<Item>, isPlaying: Option<bool>, progressMs: Option<int>)

  /** What one call of the remote API did. */
  datatype Attempt =
    | Answered(data: Option<Response>)
    | ApiError      // a SpotifyException
    | OtherError    // any other exception

  /** What one pass of the `try` block produced. */
  datatype Converted = Track(np: NowPlaying) | NoTrack | Raised

  function GetOr<T>(o: Option<T>, default: T): T {
    match o
    case Some(v) => v
    case None => default
  }

  /** Python truthiness of the item dict. */
  predicate ItemTruthy(it: Item) {
    it.name.Some? || it.artists.Some? || it.album.Some? || it.durationMs.Some? || it.otherKeys
  }

  /** An artist entry that the generator keeps: truthy, with a non-empty name. */
  predicate Credited(a: Option<Artist>) {
    a.Some? && a.value.name.Some? && a.value.name.value != ""
  }

  /** The names the generator `a["name"] for a in artists if a and a.get("name")` yields. */
  function CreditedNames(artists: seq<Option<Artist>>): (names: seq<string>)
    ensures forall i :: 0 <= i < |names| ==> names[i] != ""
    ensures |names| <= |artists|
  {
    if artists == [] then []
    else (if Credited(artists[0]) then [artists[0].value.name.value] else []) + CreditedNames(artists[1..])
  }

  /** The generator keeps the order of the entries: names from a concatenation
      are the names of the first part followed by those of the second. */
  lemma {:induction false} CreditedNamesAppend(xs: seq<Option<Artist>>, ys: seq<Option<Artist>>)
    ensures CreditedNames(xs + ys) == CreditedNames(xs) + CreditedNames(ys)
    decreases |xs|
  {
    if xs == [] {
      assert xs + ys == ys;
    } else {
      CreditedNamesAppend(xs[1..], ys);
      assert (xs + ys)[1..] == xs[1..] + ys;
    }
  }

  /** Every kept name is the name of an entry of the list, every credited
      entry contributes its name, and nothing is kept exactly when no entry
      is credited. */
  lemma {:induction false} CreditedNamesExact(artists: seq<Option<Artist>>)
    ensures forall n :: n in CreditedNames(artists) ==> Some(Artist(Some(n))) in artists
    ensures forall j :: 0 <= j < |artists| && Credited(artists[j]) ==>
      artists[j].value.name.value in CreditedNames(artists)
    ensures CreditedNames(artists) == [] <==> forall j :: 0 <= j < |artists| ==> !Credited(artists[j])
    decreases |artists|
  {
    if artists != [] {
      CreditedNamesExact(artists[1..]);
      var rest := CreditedNames(artists[1..]);
      var names := CreditedNames(artists);
      assert artists == [artists[0]] + artists[1..];
      if Credited(artists[0]) {
        assert names == [artists[0].value.name.value] + rest;
        assert artists[0] == Some(Artist(Some(artists[0].value.name.value)));
      } else {
        assert names == rest;
      }
      forall j | 0 <= j < |artists| && Credited(artists[j])
        ensures artists[j].value.name.value in names
      {
        if j > 0 {
          assert artists[1..][j - 1] == artists[j];
        }
      }
      if forall j :: 0 <= j < |artists| ==> !Credited(artists[j]) {
        assert forall j :: 0 <= j < |artists[1..]| ==> artists[1..][j] == artists[j + 1];
        assert !Credited(artists[0]);
      }
    }
  }

  /** `images[0]["url"] if images else None`; a first image without a `url`
      key raises. */
  function ArtUrl(images: seq<Image>): Option<Option<string>> {
    if images == [] then Some(None)
    else match images[0].url
      case UrlMissing => None
      case UrlNull => Some(None)
      case Url(t) => Some(Some(t))
  }

  /** The body of the `try` block: the response becomes a snapshot, "nothing
      playing", or an exception. */
  function Convert(data: Option<Response>): (c: Converted)
    ensures data.None? ==> c == NoTrack
    ensures data.Some? && (data.value.item.None? || !ItemTruthy(data.value.item.value)) ==> c == NoTrack
    ensures c.Track? ==> data.Some? && data.value.item.Some? && ItemTruthy(data.value.item.value)
    ensures data.Some? && data.value.item.Some? && ItemTruthy(data.value.item.value) ==> c != NoTrack
  {
    match data
    case None => NoTrack
    case Some(r) =>
      if r.item.None? || !ItemTruthy(r.item.value) then NoTrack
      else
        var it := r.item.value;
        var album := GetOr(it.album, Album(None, None));
        var images := GetOr(album.images, []);
        match ArtUrl(images)
        case None => Raised
        case Some(url) =>
          Track(NowPlaying(
            title := GetOr(it.name, ""),
            artist := Strings.Join(CreditedNames(GetOr(it.artists, [])), ", "),
            album := GetOr(album.name, ""),
            albumArtUrl := url,
            isPlaying := GetOr(r.isPlaying, false),
            progressMs := GetOr(r.progressMs, 0),
            durationMs := GetOr(it.durationMs, 0)))
  }

  /** The snapshot built from a response with a truthy item: the artist is the
      ", "-join of the credited names in order, the art URL is the first
      image's, and every missing field takes its default. */
  lemma ConvertFields(r: Response)
    requires r.item.Some? && ItemTruthy(r.item.value)
    ensures var it := r.item.value;
      var album := if it.album.Some? then it.album.value else Album(None, None);
      var images := if album.images.Some? then album.images.value else [];
      (images != [] && images[0].url.UrlMissing?) <==> Convert(Some(r)) == Raised
    ensures var it := r.item.value;
      var album := if it.album.Some? then it.album.value else Album(None, None);
      var images := if album.images.Some? then album.images.value else [];
      !(images != [] && images[0].url.UrlMissing?) <==> Convert(Some(r)).Track?
    ensures var it := r.item.value;
      var album := if it.album.Some? then it.album.value else Album(None, None);
      var images := if album.images.Some? then album.images.value else [];
      Convert(Some(r)).Track? ==>
        var np := Convert(Some(r)).np;
        && np.artist == Strings.Join(CreditedNames(if it.artists.Some? then it.artists.value else []), ", ")
        && (it.name.None? ==> np.title == "") && (it.name.Some? ==> np.title == it.name.value)
        && (album.name.None? ==> np.album == "") && (album.name.Some? ==> np.album == album.name.value)
        && (images == [] ==> np.albumArtUrl == None)
        && (images != [] && images[0].url.Url? ==> np.albumArtUrl == Some(images[0].url.text))
        && (images != [] && images[0].url.UrlNull? ==> np.albumArtUrl == None)
        && (r.isPlaying.None? ==> !np.isPlaying) && (r.isPlaying.Some? ==> np.isPlaying == r.isPlaying.value)
        && (r.progressMs.None? ==> np.progressMs == 0) && (r.progressMs.Some? ==> np.progressMs == r.progressMs.value)
        && (it.durationMs.None? ==> np.durationMs == 0) && (it.durationMs.Some? ==> np.durationMs == it.durationMs.value)
  {
  }

  /** What an attempt means for the retry loop: a result that ends it, or a
      failure after which the loop waits `waitMs` and tries again. */
  datatype AttemptOutcome = Done(result: Option<NowPlaying>) | Failed(waitMs: nat)

  /** One pass of the retry loop: a SpotifyException fails the attempt and
      waits a second, any other exception fails it at once, and an answer
      ends the loop unless its conversion raised, in which case the attempt
      fails at once as well. */
  function OutcomeOf(a: Attempt): (o: AttemptOutcome)
    ensures o.Failed? ==> (o.waitMs == if a.ApiError? then 1000 else 0)
    ensures a.ApiError? ==> o == Failed(1000)
    ensures a.OtherError? ==> o == Failed(0)
    ensures a.Answered? ==> (o.Failed? <==> Convert(a.data).Raised?)
    ensures a.Answered? && a.data.None? ==> o == Done(None)
    ensures a.Answered? && a.data.Some? && (a.data.value.item.None? || !ItemTruthy(a.data.value.item.value)) ==>
      o == Done(None)
    ensures a.Answered? && Convert(a.data).Track? ==> o == Done(Some(Convert(a.data).np))
  {
    match a
    case ApiError => Failed(1000)
    case OtherError => Failed(0)
    case Answered(d) =>
      match Convert(d)
      case Track(np) => Done(Some(np))
      case NoTrack => Done(None)
      case Raised => Failed(0)
  }

  function WaitOf(a: Attempt): nat {
    if OutcomeOf(a).Failed? then OutcomeOf(a).waitMs else 0
  }

  /** The result of a fetch with an initialised client. */
  function FetchResult(first: Attempt, second: Attempt): Option<NowPlaying> {
    if OutcomeOf(first).Done? then OutcomeOf(first).result
    else if OutcomeOf(second).Done? then OutcomeOf(second).result
    else None
  }

  /** The fetch results of successive passes, in order. */
  function Fetches(rounds: seq<(Attempt, Attempt)>): (fetched: seq<Option<NowPlaying>>)
    ensures |fetched| == |rounds|
  {
    if rounds == [] then [] else [FetchResult(rounds[0].0, rounds[0].1)] + Fetches(rounds[1..])
  }

  /** The pass at position `i` fetched with that pass's attempts. */
  lemma {:induction false} FetchesAt(rounds: seq<(Attempt, Attempt)>, i: nat)
    requires i < |rounds|
    ensures Fetches(rounds)[i] == FetchResult(rounds[i].0, rounds[i].1)
  {
    if i > 0 {
      FetchesAt(rounds[1..], i - 1);
    }
  }

  /** The sleep after one pass of the loop: the 2 s idle backoff when nothing
      is playing, otherwise the poll interval. */
  function SleepAfter(state: Option<NowPlaying>, pollIntervalMs: nat): nat {
    if state.None? || !state.value.isPlaying then 2000 else pollIntervalMs
  }

  /** The sleeps after successive passes. */
  function SleepsAfter(fetched: seq<Option<NowPlaying>>, pollIntervalMs: nat): (sleeps: seq<nat>)
    ensures |sleeps| == |fetched|
  {
    if fetched == [] then []
    else SleepsAfter(fetched[..|fetched| - 1], pollIntervalMs) + [SleepAfter(fetched[|fetched| - 1], pollIntervalMs)]
  }

  /** Each sleep follows its own pass: 2 s after a pass that found nothing
      playing, the poll interval otherwise. */
  lemma {:induction false} SleepsAfterEach(fetched: seq<Option<NowPlaying>>, pollIntervalMs: nat)
    ensures forall i :: 0 <= i < |fetched| ==>
      SleepsAfter(fetched, pollIntervalMs)[i] == SleepAfter(fetched[i], pollIntervalMs)
    ensures forall i :: 0 <= i < |fetched| ==>
      SleepsAfter(fetched, pollIntervalMs)[i] == (if fetched[i].Some? && fetched[i].value.isPlaying then pollIntervalMs else 2000)
  {
    if fetched != [] {
      var init := fetched[..|fetched| - 1];
      SleepsAfterEach(init, pollIntervalMs);
      assert forall i :: 0 <= i < |init| ==> init[i] == fetched[i];
    }
  }

  /** `max(0.25, ms / 1000.0)` seconds, in milliseconds. */
  function ClampInterval(ms: int): (r: nat)
    ensures r >= 250 && r >= ms
    ensures r == 250 || r == ms
  {
    if ms < 250 then 250 else ms
  }

  /** The snapshots a run of loop passes emits, starting from `last`. */
  function Debounce(last: Option<NowPlaying>, fetched: seq<Option<NowPlaying>>): seq<Option<NowPlaying>>
    decreases |fetched|
  {
    if fetched == [] then []
    else (if fetched[0] != last then [fetched[0]] else []) + Debounce(fetched[0], fetched[1..])
  }

  predicate NoStutter(s: seq<Option<NowPlaying>>) {
    forall i :: 0 <= i < |s| - 1 ==> s[i] != s[i + 1]
  }

  /** The latest state after a run of passes: the last one fetched, or the
      starting state when there were none. */
  function Latest(start: Option<NowPlaying>, fetched: seq<Option<NowPlaying>>): Option<NowPlaying> {
    if fetched == [] then start else fetched[|fetched| - 1]
  }

  /** No emission repeats its predecessor, and the first differs from the
      state the run started from. */
  lemma {:induction false} DebounceNoStutter(last: Option<NowPlaying>, fetched: seq<Option<NowPlaying>>)
    ensures NoStutter([last] + Debounce(last, fetched))
    decreases |fetched|
  {
    if fetched != [] {
      DebounceNoStutter(fetched[0], fetched[1..]);
      var rest := Debounce(fetched[0], fetched[1..]);
      if fetched[0] != last {
        assert [last] + Debounce(last, fetched) == [last] + ([fetched[0]] + rest);
        assert [last] + ([fetched[0]] + rest) == [last] + ([fetched[0]] + rest);
        var s := [last] + ([fetched[0]] + rest);
        assert ([fetched[0]] + rest) == s[1..];
      } else {
        assert Debounce(last, fetched) == rest;
        assert [last] + rest == [fetched[0]] + rest;
      }
    }
  }

  /** After a run the last thing emitted (or, if nothing was, the starting
      state) is the last state fetched. */
  lemma {:induction false} DebounceSettles(last: Option<NowPlaying>, fetched: seq<Option<NowPlaying>>)
    ensures Latest(last, Debounce(last, fetched)) == Latest(last, fetched)
    decreases |fetched|
  {
    if fetched != [] {
      DebounceSettles(fetched[0], fetched[1..]);
      var rest := Debounce(fetched[0], fetched[1..]);
      assert Latest(last, fetched) == Latest(fetched[0], fetched[1..]);
      if fetched[0] != last {
        assert Debounce(last, fetched) == [fetched[0]] + rest;
        assert Latest(last, [fetched[0]] + rest) == Latest(fetched[0], rest);
      }
    }
  }

  /** A run of value-equal fetches emits at most once: once if it differs
      from the starting state, otherwise never. */
  lemma {:induction false} DebounceConstantRun(last: Option<NowPlaying>, v: Option<NowPlaying>, fetched: seq<Option<NowPlaying>>)
    requires forall i :: 0 <= i < |fetched| ==> fetched[i] == v
    ensures fetched != [] && v != last ==> Debounce(last, fetched) == [v]
    ensures fetched == [] || v == last ==> Debounce(last, fetched) == []
    decreases |fetched|
  {
    if fetched != [] {
      DebounceConstantRun(v, v, fetched[1..]);
    }
  }

  /** From "nothing playing", the fetches X, X, nothing, Y emit exactly X,
      nothing, Y. */
  lemma DebounceScenario(x: NowPlaying, y: NowPlaying)
    ensures Debounce(None, [Some(x), Some(x), None, Some(y)]) == [Some(x), None, Some(y)]
  {
    var f := [Some(x), Some(x), None, Some(y)];
    assert f[1..] == [Some(x), None, Some(y)];
    assert f[1..][1..] == [None, Some(y)];
    assert f[1..][1..][1..] == [Some(y)];
    assert Debounce(None, [Some(y)]) == [Some(y)];
    assert Debounce(Some(x), [None, Some(y)]) == [None] + [Some(y)];
    assert Debounce(Some(x), [Some(x), None, Some(y)]) == [None, Some(y)];
    assert Debounce(None, f) == [Some(x)] + [None, Some(y)];
  }

  /** What the client does, in order: the two signals it emits and the
      side effects whose order the source fixes. */
  datatype Action =
    | Emit(state: Option<NowPlaying>)   // now_playing_updated
    | ClearUi                           // clear_ui_requested
    | StopRequested                     // the stop event was set
    | CacheRemoved                      // the token cache file was deleted
    | PollerStarted                     // a polling thread was started

  function Emits(states: seq<Option<NowPlaying>>): (r: seq<Action>)
    ensures |r| == |states|
    ensures forall i :: 0 <= i < |states| ==> r[i] == Emit(states[i])
  {
    if states == [] then [] else [Emit(states[0])] + Emits(states[1..])
  }

  datatype StepResult = Exited | Slept(ms: nat)

  class Poller {
    var config: AppConfig
    /** `self._sp is not None`: the Spotify client object exists. */
    var clientReady: bool
    /** A polling thread exists and is alive. */
    var pollerAlive: bool
    /** The cooperative stop event. */
    var stopFlag: bool
    var lastState: Option<NowPlaying>
    var pollIntervalMs: nat
    /** The token cache file exists on disk. */
    var cacheFileExists: bool
    /** Every signal and side effect so far, in order. */
    ghost var trace: seq<Action>

    ghost predicate Valid()
      reads this`pollIntervalMs, this`config, this`pollerAlive, this`clientReady
    {
      && pollIntervalMs == ClampInterval(config.client.pollIntervalMs)
      && (pollerAlive ==> clientReady)
    }

    /** `__init__`: the client object is built only when a Client ID is set,
        and building it can fail (`initSucceeds`). */
    constructor (config: AppConfig, initSucceeds: bool, cacheExists: bool)
      ensures Valid()
      ensures this.config == config && pollIntervalMs >= 250
      ensures clientReady == (config.client.clientId != "" && initSucceeds)
      ensures IsConfigured() == (config.client.clientId != "") && (clientReady ==> IsConfigured())
      ensures !pollerAlive && !stopFlag && lastState == None && trace == []
      ensures cacheFileExists == cacheExists
    {
      this.config := config;
      clientReady := config.client.clientId != "" && initSucceeds;
      pollerAlive := false;
      stopFlag := false;
      lastState := None;
      pollIntervalMs := ClampInterval(config.client.pollIntervalMs);
      cacheFileExists := cacheExists;
      trace := [];
    }

    /** `is_configured`: a Client ID is present. */
    function IsConfigured(): (r: bool)
      reads this
      ensures r <==> |config.client.clientId| > 0
    {
      config.client.clientId != ""
    }

    /** `update_credentials`: store the new Client ID and try to build the
        client; a failed build leaves the old client object in place. */
    method UpdateCredentials(newClientId: string, initSucceeds: bool)
      requires Valid()
      modifies this
      ensures Valid()
      ensures config == old(config).(client := old(config).client.(clientId := newClientId))
      ensures clientReady == (old(clientReady) || initSucceeds)
      ensures IsConfigured() == (newClientId != "")
      ensures pollerAlive == old(pollerAlive) && stopFlag == old(stopFlag) && lastState == old(lastState)
      ensures cacheFileExists == old(cacheFileExists) && trace == old(trace)
    {
      config := config.(client := config.client.(clientId := newClientId));
      if initSucceeds {
        clientReady := true;
      }
    }

    /** `get_current`: no attempt without a client; otherwise at most two
        calls, a 1 s wait after a SpotifyException, no wait after any other
        exception, and "nothing playing" when both attempts fail. */
    method GetCurrent(first: Attempt, second: Attempt) returns (state: Option<NowPlaying>, calls: nat, waitedMs: nat)
      ensures !clientReady ==> state == None && calls == 0 && waitedMs == 0
      ensures clientReady ==> state == FetchResult(first, second)
      ensures clientReady && OutcomeOf(first).Done? ==>
        state == OutcomeOf(first).result && calls == 1 && waitedMs == 0
      ensures clientReady && OutcomeOf(first).Failed? && OutcomeOf(second).Done? ==>
        state == OutcomeOf(second).result && calls == 2 && waitedMs == OutcomeOf(first).waitMs
      ensures clientReady && OutcomeOf(first).Failed? && OutcomeOf(second).Failed? ==>
        state == None && calls == 2 && waitedMs == OutcomeOf(first).waitMs + OutcomeOf(second).waitMs
    {
      state, calls, waitedMs := None, 0, 0;
      if !clientReady {
        return;
      }
      var attempts := [first, second];
      var attempt := 0;
      while attempt < 2
        invariant 0 <= attempt <= 2
        invariant calls == attempt
        invariant attempt >= 1 ==> OutcomeOf(first).Failed?
        invariant attempt >= 2 ==> OutcomeOf(second).Failed?
        invariant waitedMs == (if attempt >= 1 then WaitOf(first) else 0)
                            + (if attempt >= 2 then WaitOf(second) else 0)
        invariant state == None
      {
        calls := calls + 1;
        var outcome := OutcomeOf(attempts[attempt]);
        match outcome {
          case Done(r) =>
            state := r;
            return;
          case Failed(w) =>
            waitedMs := waitedMs + w;
        }
        attempt := attempt + 1;
      }
    }

    /** `start_polling`: a no-op without a client or while a poller is alive;
        otherwise clear the stop event and start exactly one poller. */
    method StartPolling()
      requires Valid()
      modifies this
      ensures Valid()
      ensures !old(clientReady) || old(pollerAlive) ==>
        pollerAlive == old(pollerAlive) && stopFlag == old(stopFlag) && trace == old(trace)
      ensures old(clientReady) && !old(pollerAlive) ==>
        pollerAlive && !stopFlag && trace == old(trace) + [PollerStarted]
      ensures config == old(config) && clientReady == old(clientReady) && lastState == old(lastState)
      ensures pollIntervalMs == old(pollIntervalMs) && cacheFileExists == old(cacheFileExists)
    {
      if !clientReady {
        return;
      }
      if pollerAlive {
        return;
      }
      stopFlag := false;
      pollerAlive := true;
      trace := trace + [PollerStarted];
    }

    /** One pass of `_run_polling_loop`: leave when the stop event is set;
        otherwise fetch, emit only a state that differs from the last one,
        remember it, and choose the sleep. */
    method Step(first: Attempt, second: Attempt) returns (next: StepResult)
      requires pollerAlive && clientReady
      modifies this`pollerAlive, this`lastState, this`trace
      ensures old(stopFlag) ==> next == Exited && !pollerAlive && lastState == old(lastState) && trace == old(trace)
      ensures !old(stopFlag) ==>
        var s := FetchResult(first, second);
        && pollerAlive
        && lastState == s
        && trace == old(trace) + (if s != old(lastState) then [Emit(s)] else [])
        && next == Slept(SleepAfter(s, pollIntervalMs))
    {
      if stopFlag || !clientReady {
        pollerAlive := false;
        return Exited;
      }
      var current, _, _ := GetCurrent(first, second);
      if current != lastState {
        trace := trace + [Emit(current)];
        lastState := current;
      }
      next := Slept(SleepAfter(current, pollIntervalMs));
    }

    /** `_run_polling_loop` over the answers the remote gives on successive
        passes: the emissions are exactly the debounced fetch results. */
    method RunPollingLoop(rounds: seq<(Attempt, Attempt)>) returns (sleeps: seq<nat>)
      requires Valid() && pollerAlive && !stopFlag
      modifies this`pollerAlive, this`lastState, this`trace
      ensures Valid() && pollerAlive
      ensures trace == old(trace) + Emits(Debounce(old(lastState), Fetches(rounds)))
      ensures lastState == Latest(old(lastState), Fetches(rounds))
      ensures sleeps == SleepsAfter(Fetches(rounds), pollIntervalMs)
    {
      ghost var fetched := Fetches(rounds);
      ghost var start := lastState;
      sleeps := [];
      var i := 0;
      while i < |rounds|
        invariant 0 <= i <= |rounds|
        invariant pollerAlive
        invariant trace == old(trace) + Emits(Debounce(start, fetched[..i]))
        invariant lastState == Latest(start, fetched[..i])
        invariant sleeps == SleepsAfter(fetched[..i], pollIntervalMs)
      {
        ghost var traceBefore, lastBefore, sleepsBefore := trace, lastState, sleeps;
        FetchesAt(rounds, i);
        var next := Step(rounds[i].0, rounds[i].1);
        sleeps := sleeps + [next.ms];
        PollingPass(old(trace), traceBefore, trace, sleepsBefore, sleeps, pollIntervalMs, start, fetched[..i], fetched[i], lastBefore);
        assert fetched[..i + 1] == fetched[..i] + [fetched[i]];
        i := i + 1;
      }
      assert fetched[..i] == fetched;
    }

    /** `stop`: set the stop event and join the poller; the join gives up
        after its timeout (`joinedInTime` false), leaving the thread alive
        until it next looks at the event. */
    method Stop(joinedInTime: bool)
      requires Valid()
      modifies this
      ensures Valid()
      ensures stopFlag && trace == old(trace) + [StopRequested]
      ensures pollerAlive == (old(pollerAlive) && !joinedInTime)
      ensures config == old(config) && clientReady == old(clientReady) && lastState == old(lastState)
      ensures pollIntervalMs == old(pollIntervalMs) && cacheFileExists == old(cacheFileExists)
    {
      stopFlag := true;
      trace := trace + [StopRequested];
      if pollerAlive && joinedInTime {
        pollerAlive := false;
      }
    }

    /** `relogin`: nothing without a client; otherwise stop, ask the UI to
        clear once, forget the last state, delete the token cache (ignoring a
        failed removal) and restart polling. When the join timed out, the
        old poller is still alive, so the restart does nothing and the stop
        event stays set: that poller leaves on its next pass. */
    method Relogin(joinedInTime: bool, removalFails: bool)
      requires Valid()
      modifies this
      ensures Valid()
      ensures !old(clientReady) ==>
        trace == old(trace) && lastState == old(lastState) && pollerAlive == old(pollerAlive)
        && stopFlag == old(stopFlag) && cacheFileExists == old(cacheFileExists)
      ensures old(clientReady) ==>
        var restarted := !old(pollerAlive) || joinedInTime;
        var removed := old(cacheFileExists) && !removalFails;
        && trace == old(trace) + [StopRequested, ClearUi]
                    + (if removed then [CacheRemoved] else [])
                    + (if restarted then [PollerStarted] else [])
        && lastState == None
        && pollerAlive
        && stopFlag == !restarted
        && cacheFileExists == (old(cacheFileExists) && removalFails)
      ensures config == old(config) && clientReady == old(clientReady)
    {
      if !clientReady {
        return;
      }
      Stop(joinedInTime);
      trace := trace + [ClearUi];
      lastState := None;
      if cacheFileExists {
        if !removalFails {
          cacheFileExists := false;
          trace := trace + [CacheRemoved];
        }
      }
      StartPolling();
    }

    /** `initial_fetch_and_emit`: one fetch whose result is emitted
        unconditionally, even "nothing playing", and remembered. */
    method InitialFetchAndEmit(first: Attempt, second: Attempt)
      requires Valid()
      modifies this
      ensures Valid()
      ensures !old(clientReady) ==> trace == old(trace) && lastState == old(lastState)
      ensures old(clientReady) ==>
        lastState == FetchResult(first, second) && trace == old(trace) + [Emit(lastState)]
      ensures config == old(config) && clientReady == old(clientReady) && pollerAlive == old(pollerAlive)
      ensures stopFlag == old(stopFlag) && cacheFileExists == old(cacheFileExists)
    {
      if !clientReady {
        return;
      }
      var initial, _, _ := GetCurrent(first, second);
      trace := trace + [Emit(initial)];
      lastState := initial;
    }

    /** `on_config_changed`: adopt the new configuration and its clamped poll
        interval, used from the next sleep on. */
    method OnConfigChanged(newConfig: AppConfig)
      requires Valid()
      modifies this
      ensures Valid()
      ensures config == newConfig && pollIntervalMs >= 250 && pollIntervalMs >= newConfig.client.pollIntervalMs
      ensures IsConfigured() == (newConfig.client.clientId != "")
      ensures clientReady == old(clientReady) && pollerAlive == old(pollerAlive) && stopFlag == old(stopFlag)
      ensures lastState == old(lastState) && trace == old(trace) && cacheFileExists == old(cacheFileExists)
    {
      config := newConfig;
      pollIntervalMs := ClampInterval(newConfig.client.pollIntervalMs);
    }
  }

  /** One more fetch extends the debounced emissions by at most that fetch. */
  lemma {:induction false} DebounceExtend(last: Option<NowPlaying>, fetched: seq<Option<NowPlaying>>, next: Option<NowPlaying>)
    ensures Debounce(last, fetched + [next]) ==
      Debounce(last, fetched) + (if next != Latest(last, fetched) then [next] else [])
    decreases |fetched|
  {
    if fetched == [] {
      assert fetched + [next] == [next];
    } else {
      var head, tail := fetched[0], fetched[1..];
      var first: seq<Option<NowPlaying>> := if head != last then [head] else [];
      var extra: seq<Option<NowPlaying>> := if next != Latest(last, fetched) then [next] else [];
      assert Latest(head, tail) == Latest(last, fetched) by {
        assert Latest(last, fetched) == fetched[|fetched| - 1];
      }
      DebounceExtend(head, tail, next);
      assert (fetched + [next])[1..] == tail + [next];
      calc {
        Debounce(last, fetched + [next]);
        first + Debounce(head, tail + [next]);
        first + (Debounce(head, tail) + extra);
        (first + Debounce(head, tail)) + extra;
        Debounce(last, fetched) + extra;
      }
    }
  }

  /** One more polling pass keeps the log equal to the emissions of the
      debounced fetches so far and the sleeps equal to theirs, and makes its
      fetch the latest state. */
  lemma PollingPass(initial: seq<Action>, traceBefore: seq<Action>, trace: seq<Action>,
                    sleepsBefore: seq<nat>, sleeps: seq<nat>, pollIntervalMs: nat,
                    start: Option<NowPlaying>, before: seq<Option<NowPlaying>>, x: Option<NowPlaying>,
                    lastBefore: Option<NowPlaying>)
    requires traceBefore == initial + Emits(Debounce(start, before))
    requires lastBefore == Latest(start, before)
    requires trace == traceBefore + (if x != lastBefore then [Emit(x)] else [])
    requires sleepsBefore == SleepsAfter(before, pollIntervalMs)
    requires sleeps == sleepsBefore + [SleepAfter(x, pollIntervalMs)]
    ensures trace == initial + Emits(Debounce(start, before + [x]))
    ensures Latest(start, before + [x]) == x
    ensures sleeps == SleepsAfter(before + [x], pollIntervalMs)
  {
    var extra: seq<Option<NowPlaying>> := if x != lastBefore then [x] else [];
    DebounceExtend(start, before, x);
    EmitsAppend(Debounce(start, before), extra);
    assert Emits(extra) == (if x != lastBefore then [Emit(x)] else []);
    assert (before + [x])[..|before|] == before;
  }

  /** Emitting the debounced results in sequence is the same as one
      `Emits` call over their concatenation. */
  lemma {:induction false} EmitsAppend(a: seq<Option<NowPlaying>>, b: seq<Option<NowPlaying>>)
    ensures Emits(a + b) == Emits(a) + Emits(b)
  {
    if a != [] {
      assert (a + b)[1..] == a[1..] + b;
      EmitsAppend(a[1..], b);
    } else {
      assert a + b == b;
    }
  }
}
