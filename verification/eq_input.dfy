/** The EQ panel keys (src/app/inputs/eq.rs): band selection, gain steps
    that switch to the "Custom" preset, preset cycling, save and delete,
    the preamp and balance steps, crossfade and the replay-gain cycle. The
    MPD calls that mirror crossfade and replay gain change no modelled
    state and are left out. */
module EqInput {
  import opened Wrappers
  import Keys
  import Dsp
  import Config
  import S = AppState

  const LAST_BAND: nat := 9
  const GAIN_STEP: real := 0.05
  const PREAMP_STEP: real := 1.0
  const BALANCE_STEP: real := 0.1
  const REPLAY_GAIN_MODES: nat := 4

  /** Every slider value, live and stored, lies in [0, 1]. */
  ghost predicate BandsInRange(eq: S.EqState) {
    && Config.ValidBands(eq.bands)
    && forall i :: 0 <= i < |eq.presets| ==> Config.ValidBands(eq.presets[i].bands)
  }

  /** Move the band cursor left, stopping at the first band. */
  function BandLeft(sel: nat): (r: nat)
    ensures r <= sel && (sel > 0 ==> r == sel - 1)
  {
    if sel > 0 then sel - 1 else 0
  }

  /** Move the band cursor right, stopping at the last band. */
  function BandRight(sel: nat): (r: nat)
    ensures sel < LAST_BAND ==> r == sel + 1
    ensures sel >= LAST_BAND ==> r == sel
  {
    if sel < LAST_BAND then sel + 1 else sel
  }

  /** The cursor stays on a band, and left and right undo each other away
      from the ends. */
  lemma BandCursor(sel: nat)
    requires sel <= LAST_BAND
    ensures BandLeft(sel) <= LAST_BAND && BandRight(sel) <= LAST_BAND
    ensures sel > 0 ==> BandRight(BandLeft(sel)) == sel
    ensures sel < LAST_BAND ==> BandLeft(BandRight(sel)) == sel
  {
  }

  /** The slider value after one gain step: 0.05 up or down, clamped to
      the slider's end. */
  function StepValue(b: real, up: bool): (r: real)
    ensures up ==> r == (if b + GAIN_STEP < 1.0 then b + GAIN_STEP else 1.0)
    ensures !up ==> r == (if b - GAIN_STEP > 0.0 then b - GAIN_STEP else 0.0)
    ensures 0.0 <= b <= 1.0 ==> 0.0 <= r <= 1.0
  {
    if up then (if b + GAIN_STEP < 1.0 then b + GAIN_STEP else 1.0)
    else (if b - GAIN_STEP > 0.0 then b - GAIN_STEP else 0.0)
  }

  /** Raise (`up`) or lower the selected band by one step, then mark the
      preset "Custom" and push the band to the DSP. */
  function StepGain(eq: S.EqState, up: bool): (r: S.EqState)
    requires S.Valid(eq)
    ensures S.Valid(r)
    ensures |r.bands| == |eq.bands|
    ensures r.bands[eq.selected] == StepValue(eq.bands[eq.selected], up)
    ensures forall i :: 0 <= i < |eq.bands| && i != eq.selected ==> r.bands[i] == eq.bands[i]
    ensures r.preset < |r.presets| && r.presets[r.preset] == Config.EqPreset("Custom", r.bands)
    ensures r.presetName == "Custom"
    ensures r.selected == eq.selected
    ensures BandsInRange(eq) ==> BandsInRange(r)
  {
    var e1 := eq.(bands := eq.bands[eq.selected := StepValue(eq.bands[eq.selected], up)]);
    var e2 := S.MarkCustom(e1);
    S.SyncBandToDsp(e2, e2.selected)
  }

  /** Reset-levels: preamp and balance back to neutral, the selected band
      re-sent to the DSP, and the preset left alone. */
  function ResetLevels(eq: S.EqState): (r: S.EqState)
    requires S.Valid(eq)
    ensures S.Valid(r)
    ensures r.preampDb == 0.0 && r.balance == 0.0
    ensures r.gains.preampDb == 0.0 && r.gains.balance == 0.0
    ensures r.preset == eq.preset && r.presetName == eq.presetName
    ensures r.presets == eq.presets && r.bands == eq.bands
  {
    S.SyncBandToDsp(S.ResetBalance(S.ResetPreamp(eq)), eq.selected)
  }

  /** The replay-gain key: Off, Track, Album, Auto, Off. The source's u8
      addition wraps only from 255, which lands on 0 either way. */
  function NextReplayGain(mode: nat): (r: nat)
    ensures r < REPLAY_GAIN_MODES
    ensures mode + 1 < REPLAY_GAIN_MODES ==> r == mode + 1
    ensures mode + 1 == REPLAY_GAIN_MODES ==> r == 0
  {
    (mode + 1) % REPLAY_GAIN_MODES
  }

  /** Four presses close the replay-gain cycle. */
  lemma ReplayGainCycle(mode: nat)
    requires mode < REPLAY_GAIN_MODES
    ensures NextReplayGain(NextReplayGain(NextReplayGain(NextReplayGain(mode)))) == mode
  {
  }

  /** The handler's result: whether the key was consumed and the new state. */
  datatype Outcome = Outcome(handled: bool, app: S.App)

  /** What every EQ key keeps: the state's shape, slider values in range,
      the replay-gain mode among the four, and preamp and balance within
      their limits. */
  ghost predicate Keeps(eq: S.EqState, r: S.EqState) {
    && S.Valid(r)
    && (BandsInRange(eq) ==> BandsInRange(r))
    && (eq.replayGainMode < REPLAY_GAIN_MODES ==> r.replayGainMode < REPLAY_GAIN_MODES)
    && (Dsp.MIN_DB <= eq.preampDb <= Dsp.MAX_DB ==> Dsp.MIN_DB <= r.preampDb <= Dsp.MAX_DB)
    && (Dsp.MIN_BALANCE <= eq.balance <= Dsp.MAX_BALANCE ==>
          Dsp.MIN_BALANCE <= r.balance <= Dsp.MAX_BALANCE)
  }

  /** The band and preset keys, in the handler's order; `None` when the
      key is not one of them. */
  function BandKey(eq: S.EqState, k: Keys.KeyConfig, key: Keys.KeyEvent): (r: Option<S.EqState>)
    requires S.Valid(eq) && |eq.presets| > 0
    ensures r.Some? ==> Keeps(eq, r.value)
    ensures r.Some? ==> r.value.preampDb == eq.preampDb && r.value.balance == eq.balance
  {
    if Keys.Matches(key, k.deletePreset) then
      match S.DeletePreset(eq)
      case Ok(e) => DeleteKeepsRange(eq); Some(e)
      case Err(_) => Some(eq)
    else if Keys.Matches(key, k.navLeft) || Keys.Matches(key, k.navLeftAlt) then
      Some(eq.(selected := BandLeft(eq.selected)))
    else if Keys.Matches(key, k.navRight) || Keys.Matches(key, k.navRightAlt) then
      Some(eq.(selected := BandRight(eq.selected)))
    else GainKey(eq, k, key)
  }

  /** The gain, toggle and reset keys that follow the cursor keys. */
  function GainKey(eq: S.EqState, k: Keys.KeyConfig, key: Keys.KeyEvent): (r: Option<S.EqState>)
    requires S.Valid(eq) && |eq.presets| > 0
    ensures r.Some? ==> Keeps(eq, r.value)
    ensures r.Some? ==> r.value.preampDb == eq.preampDb && r.value.balance == eq.balance
  {
    if Keys.Matches(key, k.gainUp) || Keys.Matches(key, k.navUpAlt) then
      Some(StepGain(eq, true))
    else if Keys.Matches(key, k.gainDown) || Keys.Matches(key, k.navDownAlt) then
      Some(StepGain(eq, false))
    else ToggleResetKey(eq, k, key)
  }

  /** The EQ toggle and reset keys. */
  function ToggleResetKey(eq: S.EqState, k: Keys.KeyConfig, key: Keys.KeyEvent): (r: Option<S.EqState>)
    requires S.Valid(eq) && |eq.presets| > 0
    ensures r.Some? ==> Keeps(eq, r.value)
    ensures r.Some? ==> r.value.preampDb == eq.preampDb && r.value.balance == eq.balance
  {
    if Keys.Matches(key, k.toggleEq) then Some(S.ToggleEq(eq))
    else if Keys.Matches(key, k.resetEq) then Some(S.ResetEq(eq))
    else None
  }

  /** The level keys that follow in the handler's order: reset-levels,
      preset cycling, preamp, balance, crossfade and replay gain. */
  function LevelKey(eq: S.EqState, k: Keys.KeyConfig, key: Keys.KeyEvent): (r: Option<S.EqState>)
    requires S.Valid(eq) && |eq.presets| > 0
    ensures r.Some? ==> Keeps(eq, r.value)
    ensures r.Some? ==> r.value.selected == eq.selected
  {
    if Keys.Matches(key, k.resetLevels) then Some(ResetLevels(eq))
    else if Keys.Matches(key, k.tabNext) then Some(S.NextPreset(eq))
    else if Keys.Matches(key, k.tabPrev) then Some(S.PrevPreset(eq))
    else MixKey(eq, k, key)
  }

  /** The preamp, balance, crossfade and replay-gain keys. */
  function MixKey(eq: S.EqState, k: Keys.KeyConfig, key: Keys.KeyEvent): (r: Option<S.EqState>)
    requires S.Valid(eq) && |eq.presets| > 0
    ensures r.Some? ==> Keeps(eq, r.value)
    ensures r.Some? ==> r.value.selected == eq.selected
  {
    if Keys.Matches(key, k.preampUp) then Some(S.AdjustPreamp(eq, PREAMP_STEP))
    else if Keys.Matches(key, k.preampDown) then Some(S.AdjustPreamp(eq, -PREAMP_STEP))
    else if Keys.Matches(key, k.balanceRight) then Some(S.AdjustBalance(eq, BALANCE_STEP))
    else if Keys.Matches(key, k.balanceLeft) then Some(S.AdjustBalance(eq, -BALANCE_STEP))
    else if Keys.Matches(key, k.crossfade) then Some(S.ToggleCrossfade(eq))
    else if Keys.Matches(key, k.replayGain) then
      Some(eq.(replayGainMode := NextReplayGain(eq.replayGainMode)))
    else None
  }

  /** `handle_eq_events`: only active in the EQ view; the first binding
      that matches decides, the save key opening the preset-name prompt.
      Preset cycling divides by the preset count, which is never zero
      because the built-ins cannot be deleted. Only the EQ part and the
      prompt ever change. */
  function HandleEqKey(app: S.App, key: Keys.KeyEvent): (r: Outcome)
    requires S.Valid(app.eq) && |app.eq.presets| > 0
    ensures app.viewMode != S.EQ ==> !r.handled && r.app == app
    ensures !r.handled ==> r.app == app
    ensures r.app == app.(eq := r.app.eq, inputState := r.app.inputState)
    ensures app.viewMode == S.EQ && Keys.Matches(key, app.keys.savePreset) ==>
              r.handled && r.app == app.(inputState := Some(S.InputState(S.EqSave, "Save Preset As", "")))
    ensures Keeps(app.eq, r.app.eq)
  {
    if app.viewMode != S.EQ then Outcome(false, app)
    else if Keys.Matches(key, app.keys.savePreset) then
      Outcome(true, app.(inputState := Some(S.InputState(S.EqSave, "Save Preset As", ""))))
    else
      match BandKey(app.eq, app.keys, key)
      case Some(e) => Outcome(true, app.(eq := e))
      case None =>
        match LevelKey(app.eq, app.keys, key)
        case Some(e) => Outcome(true, app.(eq := e))
        case None => Outcome(false, app)
  }

  /** Deleting a preset keeps every slider value in range. */
  lemma DeleteKeepsRange(eq: S.EqState)
    requires S.Valid(eq) && S.DeletePreset(eq).Ok?
    ensures BandsInRange(eq) ==> BandsInRange(S.DeletePreset(eq).value)
  {
    var r := S.DeletePreset(eq).value;
    if BandsInRange(eq) {
      forall i | 0 <= i < |r.presets| ensures Config.ValidBands(r.presets[i].bands) {
        assert r.presets[i] in eq.presets;
      }
    }
  }

  // ---------------------------------------------------------------------
  // Which operation each binding runs
  // ---------------------------------------------------------------------

  /** Either binding of the band cursor keys. */
  predicate CursorPressed(k: Keys.KeyConfig, key: Keys.KeyEvent) {
    || Keys.Matches(key, k.navLeft) || Keys.Matches(key, k.navLeftAlt)
    || Keys.Matches(key, k.navRight) || Keys.Matches(key, k.navRightAlt)
  }

  /** Either binding of the gain keys. */
  predicate GainPressed(k: Keys.KeyConfig, key: Keys.KeyEvent) {
    || Keys.Matches(key, k.gainUp) || Keys.Matches(key, k.navUpAlt)
    || Keys.Matches(key, k.gainDown) || Keys.Matches(key, k.navDownAlt)
  }

  /** Every key `BandKey` consumes. */
  predicate BandPressed(k: Keys.KeyConfig, key: Keys.KeyEvent) {
    || Keys.Matches(key, k.deletePreset) || CursorPressed(k, key) || GainPressed(k, key)
    || Keys.Matches(key, k.toggleEq) || Keys.Matches(key, k.resetEq)
  }

  /** The reset-levels and preset-cycling keys. */
  predicate PresetPressed(k: Keys.KeyConfig, key: Keys.KeyEvent) {
    Keys.Matches(key, k.resetLevels) || Keys.Matches(key, k.tabNext) || Keys.Matches(key, k.tabPrev)
  }

  /** The preamp and balance keys. */
  predicate LevelPressed(k: Keys.KeyConfig, key: Keys.KeyEvent) {
    || Keys.Matches(key, k.preampUp) || Keys.Matches(key, k.preampDown)
    || Keys.Matches(key, k.balanceRight) || Keys.Matches(key, k.balanceLeft)
  }

  /** In the EQ view, past the save key, each band binding runs its
      operation when no binding before it matches. */
  lemma BandBindingsRun(app: S.App, key: Keys.KeyEvent)
    requires S.Valid(app.eq) && |app.eq.presets| > 0
    requires app.viewMode == S.EQ && !Keys.Matches(key, app.keys.savePreset)
    ensures var k := app.keys; var eq := app.eq; var r := HandleEqKey(app, key);
      && (Keys.Matches(key, k.deletePreset) ==>
            r == Outcome(true, app.(eq := if S.DeletePreset(eq).Ok? then S.DeletePreset(eq).value else eq)))
      && ((Keys.Matches(key, k.navLeft) || Keys.Matches(key, k.navLeftAlt)) && !Keys.Matches(key, k.deletePreset) ==>
            r == Outcome(true, app.(eq := eq.(selected := BandLeft(eq.selected)))))
      && ((Keys.Matches(key, k.navRight) || Keys.Matches(key, k.navRightAlt)) && !Keys.Matches(key, k.deletePreset)
          && !Keys.Matches(key, k.navLeft) && !Keys.Matches(key, k.navLeftAlt) ==>
            r == Outcome(true, app.(eq := eq.(selected := BandRight(eq.selected)))))
      && ((Keys.Matches(key, k.gainUp) || Keys.Matches(key, k.navUpAlt))
          && !Keys.Matches(key, k.deletePreset) && !CursorPressed(k, key) ==>
            r == Outcome(true, app.(eq := StepGain(eq, true))))
      && ((Keys.Matches(key, k.gainDown) || Keys.Matches(key, k.navDownAlt)) && !Keys.Matches(key, k.deletePreset)
          && !CursorPressed(k, key) && !Keys.Matches(key, k.gainUp) && !Keys.Matches(key, k.navUpAlt) ==>
            r == Outcome(true, app.(eq := StepGain(eq, false))))
      && (Keys.Matches(key, k.toggleEq) && !Keys.Matches(key, k.deletePreset) && !CursorPressed(k, key)
          && !GainPressed(k, key) ==>
            r == Outcome(true, app.(eq := S.ToggleEq(eq))))
      && (Keys.Matches(key, k.resetEq) && !Keys.Matches(key, k.deletePreset) && !CursorPressed(k, key)
          && !GainPressed(k, key) && !Keys.Matches(key, k.toggleEq) ==>
            r == Outcome(true, app.(eq := S.ResetEq(eq))))
  {
  }

  /** In the EQ view, past the save key and the band keys, each level
      binding runs its operation when no binding before it matches; a key
      bound to nothing is passed on. */
  lemma LevelBindingsRun(app: S.App, key: Keys.KeyEvent)
    requires S.Valid(app.eq) && |app.eq.presets| > 0
    requires app.viewMode == S.EQ && !Keys.Matches(key, app.keys.savePreset) && !BandPressed(app.keys, key)
    ensures var k := app.keys; var eq := app.eq; var r := HandleEqKey(app, key);
      && (Keys.Matches(key, k.resetLevels) ==> r == Outcome(true, app.(eq := ResetLevels(eq))))
      && (Keys.Matches(key, k.tabNext) && !Keys.Matches(key, k.resetLevels) ==>
            r == Outcome(true, app.(eq := S.NextPreset(eq))))
      && (Keys.Matches(key, k.tabPrev) && !Keys.Matches(key, k.resetLevels) && !Keys.Matches(key, k.tabNext) ==>
            r == Outcome(true, app.(eq := S.PrevPreset(eq))))
      && (Keys.Matches(key, k.preampUp) && !PresetPressed(k, key) ==>
            r == Outcome(true, app.(eq := S.AdjustPreamp(eq, PREAMP_STEP))))
      && (Keys.Matches(key, k.preampDown) && !PresetPressed(k, key) && !Keys.Matches(key, k.preampUp) ==>
            r == Outcome(true, app.(eq := S.AdjustPreamp(eq, -PREAMP_STEP))))
      && (Keys.Matches(key, k.balanceRight) && !PresetPressed(k, key) && !Keys.Matches(key, k.preampUp)
          && !Keys.Matches(key, k.preampDown) ==>
            r == Outcome(true, app.(eq := S.AdjustBalance(eq, BALANCE_STEP))))
      && (Keys.Matches(key, k.balanceLeft) && !PresetPressed(k, key) && !Keys.Matches(key, k.preampUp)
          && !Keys.Matches(key, k.preampDown) && !Keys.Matches(key, k.balanceRight) ==>
            r == Outcome(true, app.(eq := S.AdjustBalance(eq, -BALANCE_STEP))))
      && (Keys.Matches(key, k.crossfade) && !PresetPressed(k, key) && !LevelPressed(k, key) ==>
            r == Outcome(true, app.(eq := S.ToggleCrossfade(eq))))
      && (Keys.Matches(key, k.replayGain) && !PresetPressed(k, key) && !LevelPressed(k, key)
          && !Keys.Matches(key, k.crossfade) ==>
            r == Outcome(true, app.(eq := eq.(replayGainMode := NextReplayGain(eq.replayGainMode)))))
      && (!PresetPressed(k, key) && !LevelPressed(k, key) && !Keys.Matches(key, k.crossfade)
          && !Keys.Matches(key, k.replayGain) ==>
            r == Outcome(false, app))
  {
  }
}
