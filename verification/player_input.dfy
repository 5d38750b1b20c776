/** The playback keys (src/app/inputs/player.rs): volume stepping, seek
    accumulation with its generation counter, shuffle, the repeat-mode cycle
    and device cycling. Player and MPD calls are outside the model; their
    outcomes arrive in `PlayerEnv`. */
module PlayerInput {
  import opened Wrappers
  import Keys
  import Player
  import S = AppState

  /** What the outside world answers during one key press. */
  datatype PlayerEnv = PlayerEnv(
    nowMs: nat,                  // the clock when the key arrives
    controller: bool,            // the `--controller` flag: no MPD
    mpdRandom: Option<bool>,     // MPD's random flag, if the status query succeeded
    mpdRepeatOk: bool,           // whether MPD accepted the repeat command
    deviceList: seq<string>,     // the devices a refresh enumerates
    deviceSwitched: bool)        // whether switching the output succeeded

  // ---------------------------------------------------------------------
  // Volume
  // ---------------------------------------------------------------------

  const U8_MAX: nat := 255
  const VOLUME_MAX: nat := 100
  const VOLUME_STEP: nat := 5

  /** Volume up: a saturating u8 add of 5, capped at 100. */
  function VolumeUp(v: nat): (r: nat)
    requires v <= U8_MAX
    ensures r <= VOLUME_MAX
    ensures v + VOLUME_STEP <= VOLUME_MAX ==> r == v + VOLUME_STEP
    ensures v + VOLUME_STEP > VOLUME_MAX ==> r == VOLUME_MAX
  {
    var sum := if v + VOLUME_STEP > U8_MAX then U8_MAX else v + VOLUME_STEP;
    if sum < VOLUME_MAX then sum else VOLUME_MAX
  }

  /** Volume down: a saturating subtraction of 5. */
  function VolumeDown(v: nat): (r: nat)
    ensures r <= v
    ensures v >= VOLUME_STEP ==> r == v - VOLUME_STEP
    ensures v < VOLUME_STEP ==> r == 0
  {
    if v >= VOLUME_STEP then v - VOLUME_STEP else 0
  }

  /** Up and down undo each other away from the ends of the scale. */
  lemma VolumeStepsInverse(v: nat)
    requires v <= VOLUME_MAX
    ensures v + VOLUME_STEP <= VOLUME_MAX ==> VolumeDown(VolumeUp(v)) == v
    ensures v >= VOLUME_STEP ==> VolumeUp(VolumeDown(v)) == v
    ensures VolumeDown(v) <= VOLUME_MAX && VolumeUp(v) <= VOLUME_MAX
  {
  }

  // ---------------------------------------------------------------------
  // Repeat
  // ---------------------------------------------------------------------

  /** The repeat key's cycle: Off, Playlist, Single, Off. */
  function NextRepeat(m: Player.RepeatMode): (r: Player.RepeatMode)
    ensures r != m
  {
    match m
    case Off => Player.Playlist
    case Playlist => Player.Single
    case Single => Player.Off
  }

  /** MPD's (repeat, single) flag pair for a mode. */
  function RepeatFlags(m: Player.RepeatMode): (r: (bool, bool))
    ensures r.1 ==> r.0
  {
    match m
    case Off => (false, false)
    case Playlist => (true, false)
    case Single => (true, true)
  }

  /** Reading the flag pair back. */
  function ModeOfFlags(repeat: bool, single: bool): Player.RepeatMode {
    if !repeat then Player.Off else if single then Player.Single else Player.Playlist
  }

  /** Three presses close the cycle, and the flag pair identifies the mode. */
  lemma RepeatCycle(m: Player.RepeatMode)
    ensures NextRepeat(NextRepeat(NextRepeat(m))) == m
    ensures ModeOfFlags(RepeatFlags(m).0, RepeatFlags(m).1) == m
  {
  }

  // ---------------------------------------------------------------------
  // Seeking
  // ---------------------------------------------------------------------

  const SEQUENCE_GAP_MS: nat := 500
  const SEEK_STEP_SECS: real := 5.0

  /** A seek handed to the background task: the target in seconds, the
      generation it was issued under and the (title, artist) it was meant
      for. */
  datatype SeekRequest = SeekRequest(targetSecs: real, id: nat, trackKey: Option<(string, string)>)

  /** A key press starts a new seek sequence when there was no earlier seek
      or the last one was at least 500 ms ago. */
  predicate IsNewSequence(app: S.App, nowMs: nat) {
    app.seek.lastTimeMs.None? || S.Elapsed(app.seek.lastTimeMs.value, nowMs) >= SEQUENCE_GAP_MS
  }

  /** The seek target clamped to [0, duration] with a track, or to >= 0
      without one. */
  function ClampTarget(target: real, track: Option<Player.TrackInfo>): (r: real)
    ensures r >= 0.0
    ensures track.Some? ==> r <= track.value.durationMs as real / 1000.0
    ensures track.Some? && 0.0 <= target <= track.value.durationMs as real / 1000.0 ==> r == target
    ensures track.None? && target >= 0.0 ==> r == target
  {
    var t := if target < 0.0 then 0.0 else target;
    match track
    case Some(tr) =>
      var d := tr.durationMs as real / 1000.0;
      if t > d then d else t
    case None => t
  }

  /** One seek press (`forward` for the forward key). It updates the
      sequence state and, when a start position is known, bumps the
      generation counter and issues a request for the clamped target. */
  function SeekPress(app: S.App, nowMs: nat, forward: bool): (r: (S.App, Option<SeekRequest>))
    ensures var step := if forward then SEEK_STEP_SECS else -SEEK_STEP_SECS;
      && (IsNewSequence(app, nowMs) ==> r.0.seek.accumulator == step && r.0.seek.initialPos.Some?)
      && (IsNewSequence(app, nowMs) && app.track.None? ==> r.0.seek.initialPos == Some(0.0))
      && (!IsNewSequence(app, nowMs) ==>
            r.0.seek.accumulator == app.seek.accumulator + step && r.0.seek.initialPos == app.seek.initialPos)
    ensures r.0.seek.lastTimeMs == Some(nowMs)
    ensures r.1.Some? <==> r.0.seek.initialPos.Some?
    ensures r.1.Some? ==>
      && r.0.seek.id == app.seek.id + 1
      && r.1.value.id == r.0.seek.id
      && r.1.value.targetSecs == ClampTarget(r.0.seek.initialPos.value + r.0.seek.accumulator, app.track)
      && r.1.value.trackKey == (if app.track.Some? then Some((app.track.value.name, app.track.value.artist)) else None)
    ensures r.1.None? ==> r.0.seek.id == app.seek.id
    ensures r.0 == app.(seek := r.0.seek)
  {
    var step := if forward then SEEK_STEP_SECS else -SEEK_STEP_SECS;
    var a1 :=
      if IsNewSequence(app, nowMs) then
        var initial := if app.track.Some? then S.CurrentPositionMs(app, nowMs) as real / 1000.0 else 0.0;
        app.(seek := app.seek.(initialPos := Some(initial), accumulator := step))
      else app.(seek := app.seek.(accumulator := app.seek.accumulator + step));
    var a2 := a1.(seek := a1.seek.(lastTimeMs := Some(nowMs)));
    match a2.seek.initialPos
    case Some(start) =>
      var target := ClampTarget(start + a2.seek.accumulator, app.track);
      var a3 := a2.(seek := a2.seek.(id := app.seek.id + 1));
      var key := if app.track.Some? then Some((app.track.value.name, app.track.value.artist)) else None;
      (a3, Some(SeekRequest(target, a3.seek.id, key)))
    case None => (a2, None)
  }

  /** The background task seeks only if no newer request has been issued
      and the player is still on the track the request was made for. */
  predicate SeekExecutes(req: SeekRequest, latestId: nat, current: Option<(string, string)>) {
    req.id == latestId && current.Some? && req.trackKey == current
  }

  /** Two presses less than 500 ms apart, the first starting a sequence,
      form one sequence: the steps add up from the same start position, both
      issue a request, and only the second request can run. */
  lemma RapidSeeksAccumulate(app: S.App, t0: nat, t1: nat, forward: bool, current: Option<(string, string)>)
    requires IsNewSequence(app, t0)
    requires t0 <= t1 < t0 + SEQUENCE_GAP_MS
    ensures var (a1, q1) := SeekPress(app, t0, forward);
      var (a2, q2) := SeekPress(a1, t1, forward);
      && a2.seek.initialPos == a1.seek.initialPos
      && a2.seek.accumulator == a1.seek.accumulator + (if forward then SEEK_STEP_SECS else -SEEK_STEP_SECS)
      && q1.Some? && q2.Some?
      && !SeekExecutes(q1.value, a2.seek.id, current)
  {
    var (a1, q1) := SeekPress(app, t0, forward);
    assert !IsNewSequence(a1, t1);
  }

  /** Presses of the same seek key at the clock readings `times`. */
  function PressMany(app: S.App, times: seq<nat>, forward: bool): (r: S.App)
    decreases |times|
  {
    if times == [] then app else PressMany(SeekPress(app, times[0], forward).0, times[1..], forward)
  }

  /** Each press is less than 500 ms after the previous one, the first
      less than 500 ms after `last`. */
  predicate Rapid(last: nat, times: seq<nat>)
    decreases |times|
  {
    times == [] || (last <= times[0] < last + SEQUENCE_GAP_MS && Rapid(times[0], times[1..]))
  }

  /** A run of presses continuing a sequence, with no 500 ms pause, adds
      5 s per press to the accumulator and keeps the start position. */
  lemma {:induction false} PressManyAccumulates(app: S.App, times: seq<nat>, forward: bool)
    requires app.seek.lastTimeMs.Some? && Rapid(app.seek.lastTimeMs.value, times)
    ensures PressMany(app, times, forward).seek.initialPos == app.seek.initialPos
    ensures forward ==> PressMany(app, times, forward).seek.accumulator == app.seek.accumulator + (|times| as real) * SEEK_STEP_SECS
    ensures !forward ==> PressMany(app, times, forward).seek.accumulator == app.seek.accumulator - (|times| as real) * SEEK_STEP_SECS
    decreases |times|
  {
    if times != [] {
      var step := if forward then SEEK_STEP_SECS else -SEEK_STEP_SECS;
      var a1 := SeekPress(app, times[0], forward).0;
      assert !IsNewSequence(app, times[0]);
      assert a1.seek.accumulator == app.seek.accumulator + step;
      assert a1.seek.lastTimeMs == Some(times[0]);
      PressManyAccumulates(a1, times[1..], forward);
      assert PressMany(app, times, forward) == PressMany(a1, times[1..], forward);
      assert |times[1..]| as real == (|times| as real) - 1.0;
    }
  }

  // ---------------------------------------------------------------------
  // The handler
  // ---------------------------------------------------------------------

  /** The handler's result: whether the key was consumed, the new state and
      the seek request, if any. */
  datatype Outcome = Outcome(handled: bool, app: S.App, seek: Option<SeekRequest>)

  /** `handle_player_events`: the first binding that matches decides. */
  function HandlePlayerKey(app: S.App, key: Keys.KeyEvent, env: PlayerEnv): (r: Outcome)
    requires app.appVolume <= U8_MAX
    requires S.DeviceCursorValid(app.audio)
    ensures !r.handled ==> r.app == app && r.seek.None?
    ensures r.app.appVolume <= app.appVolume || r.app.appVolume <= VOLUME_MAX
    ensures app.viewMode == S.EQ ==> r.seek.None?
    ensures app.viewMode == S.Library ==> r.app.audio == app.audio
    ensures r.seek.Some? ==> r.seek.value.id == r.app.seek.id && r.app.seek.id == app.seek.id + 1
    ensures r.seek.None? ==> r.app.seek.id == app.seek.id
  {
    var k := app.keys;
    if Keys.Matches(key, k.playPause) || Keys.Matches(key, k.nextTrack) || Keys.Matches(key, k.prevTrack) then
      Outcome(true, app, None)
    else if Keys.Matches(key, k.volumeUp) then
      Outcome(true, app.(appVolume := VolumeUp(app.appVolume), lastVolumeActionMs := Some(env.nowMs)), None)
    else if Keys.Matches(key, k.volumeDown) then
      Outcome(true, app.(appVolume := VolumeDown(app.appVolume), lastVolumeActionMs := Some(env.nowMs)), None)
    else if (Keys.Matches(key, k.seekBackward) || Keys.Matches(key, k.navLeftAlt)) && app.viewMode != S.EQ then
      var (a, q) := SeekPress(app, env.nowMs, false);
      Outcome(true, a, q)
    else if (Keys.Matches(key, k.seekForward) || Keys.Matches(key, k.navRightAlt)) && app.viewMode != S.EQ then
      var (a, q) := SeekPress(app, env.nowMs, true);
      Outcome(true, a, q)
    else if Keys.Matches(key, k.shuffle) then
      if env.controller then Outcome(true, app.(shuffle := !app.shuffle), None)
      else match env.mpdRandom
        case Some(random) => Outcome(true, app.(shuffle := !random), None)
        case None => Outcome(true, app, None)
    else if Keys.Matches(key, k.repeat) then
      if env.controller || env.mpdRepeatOk then Outcome(true, app.(repeat := NextRepeat(app.repeat)), None)
      else Outcome(true, app, None)
    else if app.viewMode in {S.Lyrics, S.Visualizer, S.EQ} && Keys.Matches(key, k.deviceNext) then
      Outcome(true, app.(audio := S.CycleDevice(app.audio, env.deviceList, true, env.deviceSwitched)), None)
    else if app.viewMode in {S.Lyrics, S.Visualizer, S.EQ} && Keys.Matches(key, k.devicePrev) then
      Outcome(true, app.(audio := S.CycleDevice(app.audio, env.deviceList, false, env.deviceSwitched)), None)
    else Outcome(false, app, None)
  }

  // ---------------------------------------------------------------------
  // Which operation each binding runs
  // ---------------------------------------------------------------------

  /** The transport keys, which only talk to the player. */
  predicate TransportPressed(k: Keys.KeyConfig, key: Keys.KeyEvent) {
    Keys.Matches(key, k.playPause) || Keys.Matches(key, k.nextTrack) || Keys.Matches(key, k.prevTrack)
  }

  /** The seek keys, live outside the EQ view. */
  predicate SeekPressed(app: S.App, key: Keys.KeyEvent) {
    && app.viewMode != S.EQ
    && (|| Keys.Matches(key, app.keys.seekBackward) || Keys.Matches(key, app.keys.navLeftAlt)
        || Keys.Matches(key, app.keys.seekForward) || Keys.Matches(key, app.keys.navRightAlt))
  }

  /** The keys handled before shuffle. */
  predicate EarlyPressed(app: S.App, key: Keys.KeyEvent) {
    || TransportPressed(app.keys, key)
    || Keys.Matches(key, app.keys.volumeUp) || Keys.Matches(key, app.keys.volumeDown)
    || SeekPressed(app, key)
  }

  /** The transport, volume and seek bindings run their operations when no
      binding before them matches. */
  lemma PlayerBindingsRun(app: S.App, key: Keys.KeyEvent, env: PlayerEnv)
    requires app.appVolume <= U8_MAX && S.DeviceCursorValid(app.audio)
    ensures var k := app.keys; var r := HandlePlayerKey(app, key, env);
      && (TransportPressed(k, key) ==> r == Outcome(true, app, None))
      && (Keys.Matches(key, k.volumeUp) && !TransportPressed(k, key) ==>
            r == Outcome(true, app.(appVolume := VolumeUp(app.appVolume), lastVolumeActionMs := Some(env.nowMs)), None))
      && (Keys.Matches(key, k.volumeDown) && !TransportPressed(k, key) && !Keys.Matches(key, k.volumeUp) ==>
            r == Outcome(true, app.(appVolume := VolumeDown(app.appVolume), lastVolumeActionMs := Some(env.nowMs)), None))
      && ((Keys.Matches(key, k.seekBackward) || Keys.Matches(key, k.navLeftAlt)) && app.viewMode != S.EQ
          && !TransportPressed(k, key) && !Keys.Matches(key, k.volumeUp) && !Keys.Matches(key, k.volumeDown) ==>
            r == Outcome(true, SeekPress(app, env.nowMs, false).0, SeekPress(app, env.nowMs, false).1))
      && ((Keys.Matches(key, k.seekForward) || Keys.Matches(key, k.navRightAlt)) && app.viewMode != S.EQ
          && !TransportPressed(k, key) && !Keys.Matches(key, k.volumeUp) && !Keys.Matches(key, k.volumeDown)
          && !Keys.Matches(key, k.seekBackward) && !Keys.Matches(key, k.navLeftAlt) ==>
            r == Outcome(true, SeekPress(app, env.nowMs, true).0, SeekPress(app, env.nowMs, true).1))
  {
  }

  /** The shuffle, repeat and device bindings run their operations when no
      binding before them matches; a key bound to nothing is passed on. */
  lemma LaterPlayerBindingsRun(app: S.App, key: Keys.KeyEvent, env: PlayerEnv)
    requires app.appVolume <= U8_MAX && S.DeviceCursorValid(app.audio)
    requires !EarlyPressed(app, key)
    ensures var k := app.keys; var r := HandlePlayerKey(app, key, env);
      var onDevices := app.viewMode in {S.Lyrics, S.Visualizer, S.EQ};
      && (Keys.Matches(key, k.shuffle) && env.controller ==>
            r == Outcome(true, app.(shuffle := !app.shuffle), None))
      && (Keys.Matches(key, k.shuffle) && !env.controller ==>
            r == Outcome(true, if env.mpdRandom.Some? then app.(shuffle := !env.mpdRandom.value) else app, None))
      && (Keys.Matches(key, k.repeat) && !Keys.Matches(key, k.shuffle) ==>
            r == Outcome(true, if env.controller || env.mpdRepeatOk then app.(repeat := NextRepeat(app.repeat)) else app, None))
      && (onDevices && Keys.Matches(key, k.deviceNext) && !Keys.Matches(key, k.shuffle) && !Keys.Matches(key, k.repeat) ==>
            r == Outcome(true, app.(audio := S.CycleDevice(app.audio, env.deviceList, true, env.deviceSwitched)), None))
      && (onDevices && Keys.Matches(key, k.devicePrev) && !Keys.Matches(key, k.deviceNext)
          && !Keys.Matches(key, k.shuffle) && !Keys.Matches(key, k.repeat) ==>
            r == Outcome(true, app.(audio := S.CycleDevice(app.audio, env.deviceList, false, env.deviceSwitched)), None))
      && (!Keys.Matches(key, k.shuffle) && !Keys.Matches(key, k.repeat)
          && !(onDevices && (Keys.Matches(key, k.deviceNext) || Keys.Matches(key, k.devicePrev))) ==>
            r == Outcome(false, app, None))
  {
  }
}
