/** The lyrics panel keys (src/app/inputs/lyrics.rs): moving a manual
    line selection down and up from the line being sung, and jumping the
    player to the selected line. The seek itself runs in the background and
    becomes the handler's output; the toast it shows is left out. */
module LyricsInput {
  import opened Wrappers
  import Lists
  import Keys
  import Lrc = Lyrics
  import S = AppState
  import Player

  /** The last index of a list of `n` lines, saturating at 0. */
  function LastIndex(n: nat): nat {
    if n > 0 then n - 1 else 0
  }

  /** Whether a line has not started by `trackMs`. */
  function After(trackMs: nat): Lrc.LyricLine -> bool {
    (l: Lrc.LyricLine) => l.timestampMs > trackMs
  }

  /** The line being sung at `trackMs`: the one before the first line that
      starts later, line 0 when even the first starts later, and the last
      line when every line has started. */
  function CurrentLine(lines: seq<Lrc.LyricLine>, trackMs: nat): (r: nat)
    ensures r <= LastIndex(|lines|)
    ensures forall j :: 0 <= j < r ==> lines[j].timestampMs <= trackMs
    ensures r < |lines| ==> r == 0 || lines[r].timestampMs <= trackMs
    ensures r + 1 < |lines| ==> lines[r + 1].timestampMs > trackMs || lines[0].timestampMs > trackMs
  {
    match Lists.FindIndex(After(trackMs), lines)
    case Some(i) => if i > 0 then i - 1 else 0
    case None => LastIndex(|lines|)
  }

  /** Timestamps never decrease down the list, as in a parsed LRC file. */
  predicate Sorted(lines: seq<Lrc.LyricLine>) {
    forall i, j :: 0 <= i < j < |lines| ==> lines[i].timestampMs <= lines[j].timestampMs
  }

  /** How many lines have started by `t`: an independent reference for the
      current line. */
  function CountStarted(lines: seq<Lrc.LyricLine>, t: nat): (r: nat)
    ensures r <= |lines|
  {
    if lines == [] then 0
    else (if lines[0].timestampMs <= t then 1 else 0) + CountStarted(lines[1..], t)
  }

  /** When the first `i` lines have started and the rest have not, exactly
      `i` lines have started. */
  lemma {:induction false} CountStartedPrefix(lines: seq<Lrc.LyricLine>, t: nat, i: nat)
    requires i <= |lines|
    requires forall j :: 0 <= j < i ==> lines[j].timestampMs <= t
    requires forall j :: i <= j < |lines| ==> lines[j].timestampMs > t
    ensures CountStarted(lines, t) == i
  {
    if lines != [] {
      if i > 0 {
        CountStartedPrefix(lines[1..], t, i - 1);
      } else {
        CountStartedPrefix(lines[1..], t, 0);
      }
    }
  }

  /** On sorted lyrics whose first line has started, the current line is
      the last line that has started. */
  lemma CurrentLineIsLastStarted(lines: seq<Lrc.LyricLine>, t: nat)
    requires Sorted(lines) && |lines| > 0 && lines[0].timestampMs <= t
    ensures CurrentLine(lines, t) + 1 == CountStarted(lines, t)
  {
    var r := CurrentLine(lines, t);
    if r + 1 < |lines| {
      assert lines[r + 1].timestampMs > t;
    }
    CountStartedPrefix(lines, t, r + 1);
  }

  /** The position the handler reads: the last reported track position,
      0 without a track. */
  function TrackMs(app: S.App): (r: nat)
    ensures app.track.None? ==> r == 0
    ensures app.track.Some? ==> r == app.track.value.positionMs
  {
    if app.track.Some? then app.track.value.positionMs else 0
  }

  /** The handler reads the last reported position, not the interpolated
      one the player view shows: the two agree unless the track is
      playing, and then the handler's never runs ahead while the report
      is within the track. */
  lemma TrackMsLagsPosition(app: S.App, nowMs: nat)
    ensures app.track.None? || app.track.value.state != Player.Playing || app.lastTrackUpdateMs.None?
      ==> TrackMs(app) == S.CurrentPositionMs(app, nowMs)
    ensures app.track.Some? && app.track.value.positionMs <= app.track.value.durationMs
      ==> TrackMs(app) <= S.CurrentPositionMs(app, nowMs)
  {
  }

  /** Move the selection one line (`down` or up) from the manual selection,
      or from the line being sung when there is none; the view scrolls to
      the new line and the scroll time is stamped. Only loaded lyrics
      react. */
  function Nav(v: S.LyricsView, trackMs: nat, nowMs: nat, down: bool): (r: S.LyricsView)
    ensures !v.state.Loaded? ==> r == v
    ensures v.state.Loaded? ==>
      var cur := if v.selected.Some? then v.selected.value else CurrentLine(v.state.lines, trackMs);
      && r.selected.Some? && r.offset == r.selected
      && (down ==> r.selected.value == (if cur + 1 < LastIndex(|v.state.lines|) then cur + 1 else LastIndex(|v.state.lines|)))
      && (!down ==> r.selected.value == (if cur > 0 then cur - 1 else 0))
      && r.lastScrollTimeMs == Some(nowMs)
      && r.state == v.state
  {
    match v.state
    case Loaded(lines, _) =>
      var max := LastIndex(|lines|);
      var cur := if v.selected.Some? then v.selected.value else CurrentLine(lines, trackMs);
      var next := if down then (if cur + 1 < max then cur + 1 else max) else (if cur > 0 then cur - 1 else 0);
      v.(selected := Some(next), offset := Some(next), lastScrollTimeMs := Some(nowMs))
    case _ => v
  }

  /** A manual selection, when present, points at a line (or is 0 for an
      empty list). */
  predicate SelectionInRange(v: S.LyricsView) {
    v.state.Loaded? && v.selected.Some? ==> v.selected.value <= LastIndex(|v.state.lines|)
  }

  /** Moving keeps the selection on a line; up then down, and down then up
      away from the last line, return to the same line. */
  lemma NavRoundTrip(v: S.LyricsView, trackMs: nat, t1: nat, t2: nat)
    requires SelectionInRange(v)
    ensures SelectionInRange(Nav(v, trackMs, t1, true)) && SelectionInRange(Nav(v, trackMs, t1, false))
    ensures v.state.Loaded? && v.selected.Some? && v.selected.value > 0 ==>
      Nav(Nav(v, trackMs, t1, false), trackMs, t2, true).selected == v.selected
    ensures v.state.Loaded? && v.selected.Some? && v.selected.value < LastIndex(|v.state.lines|) ==>
      Nav(Nav(v, trackMs, t1, true), trackMs, t2, false).selected == v.selected
  {
  }

  /** Jump to the selected line: when the lyrics are loaded and the
      selection is on a line, return that line's start in seconds and drop
      back to following the song. Otherwise nothing happens. */
  function SeekToLine(v: S.LyricsView): (r: (S.LyricsView, Option<real>))
    ensures r.1.Some? <==> v.state.Loaded? && v.selected.Some? && v.selected.value < |v.state.lines|
    ensures r.1.Some? ==>
      && r.1.value == v.state.lines[v.selected.value].timestampMs as real / 1000.0
      && r.0 == v.(selected := None, offset := None, lastScrollTimeMs := None)
    ensures r.1.None? ==> r.0 == v
  {
    match v.state
    case Loaded(lines, _) =>
      if v.selected.Some? && v.selected.value < |lines| then
        (v.(selected := None, offset := None, lastScrollTimeMs := None),
         Some(lines[v.selected.value].timestampMs as real / 1000.0))
      else (v, None)
    case _ => (v, None)
  }

  /** The handler's result: whether the key was consumed, the new state and
      the seek target in seconds, if any. */
  datatype Outcome = Outcome(handled: bool, app: S.App, seekSecs: Option<real>)

  /** `handle_lyrics_events`: only active in the lyrics view. The three
      bindings are consumed whether or not lyrics are loaded; only the
      lyrics panel's fields ever change. */
  function HandleLyricsKey(app: S.App, key: Keys.KeyEvent, nowMs: nat): (r: Outcome)
    ensures app.viewMode != S.Lyrics ==> !r.handled
    ensures !r.handled ==> r.app == app && r.seekSecs.None?
    ensures !app.lyrics.state.Loaded? ==> r.app == app && r.seekSecs.None?
    ensures r.app == app.(lyrics := r.app.lyrics)
    ensures r.app.lyrics.state == app.lyrics.state
    ensures SelectionInRange(app.lyrics) ==> SelectionInRange(r.app.lyrics)
    ensures r.seekSecs.Some? ==> r.app.lyrics.selected.None? && r.app.lyrics.offset.None?
  {
    var k := app.keys;
    if app.viewMode != S.Lyrics then Outcome(false, app, None)
    else if Keys.Matches(key, k.navDown) || Keys.Matches(key, k.navDownAlt) then
      Outcome(true, app.(lyrics := Nav(app.lyrics, TrackMs(app), nowMs, true)), None)
    else if Keys.Matches(key, k.navUp) || Keys.Matches(key, k.navUpAlt) then
      Outcome(true, app.(lyrics := Nav(app.lyrics, TrackMs(app), nowMs, false)), None)
    else if Keys.Matches(key, k.seekToLine) then
      var (v, target) := SeekToLine(app.lyrics);
      Outcome(true, app.(lyrics := v), target)
    else Outcome(false, app, None)
  }
  /** Either binding of moving down. */
  predicate DownPressed(k: Keys.KeyConfig, key: Keys.KeyEvent) {
    Keys.Matches(key, k.navDown) || Keys.Matches(key, k.navDownAlt)
  }

  /** Either binding of moving up. */
  predicate UpPressed(k: Keys.KeyConfig, key: Keys.KeyEvent) {
    Keys.Matches(key, k.navUp) || Keys.Matches(key, k.navUpAlt)
  }

  /** In the lyrics view each binding, in the order the handler tests
      them, runs its operation and is consumed, even with no lyrics loaded:
      down and up move the selection from the position the track reports,
      the seek key jumps to the selected line, and any other key is passed
      on with nothing changed. */
  lemma LyricsBindingsRun(app: S.App, key: Keys.KeyEvent, nowMs: nat)
    requires app.viewMode == S.Lyrics
    ensures var k := app.keys; var r := HandleLyricsKey(app, key, nowMs);
      && (DownPressed(k, key) ==>
            r == Outcome(true, app.(lyrics := Nav(app.lyrics, TrackMs(app), nowMs, true)), None))
      && (UpPressed(k, key) && !DownPressed(k, key) ==>
            r == Outcome(true, app.(lyrics := Nav(app.lyrics, TrackMs(app), nowMs, false)), None))
      && (Keys.Matches(key, k.seekToLine) && !DownPressed(k, key) && !UpPressed(k, key) ==>
            r == Outcome(true, app.(lyrics := SeekToLine(app.lyrics).0), SeekToLine(app.lyrics).1))
      && (!DownPressed(k, key) && !UpPressed(k, key) && !Keys.Matches(key, k.seekToLine) ==>
            r == Outcome(false, app, None))
  {
  }
}
