/** The application state record and the operations `App` performs on it
    (src/app/state.rs): preset cycling and editing, the EQ reset, the preamp,
    balance and crossfade controls, and the output-device list. The system
    clock, the device enumeration and the device switch are parameters. */
module AppState {
  import opened Wrappers
  import Lists
  import Dsp
  import Config
  import Player
  import Keys
  import Lrc = Lyrics

  /** What the right-hand panel shows. */
  datatype ViewMode = Lyrics | Visualizer | Library | EQ

  /** Sub-mode of the library panel. */
  datatype LibraryMode = Queue | Directory | Search | Playlists

  datatype LyricsState =
    | Idle
    | Loading
    | Loaded(lines: seq<Lrc.LyricLine>, source: string)
    | Instrumental
    | Failed(message: string)
    | NotFound

  /** The tag-editor popup; `activeField` 0 is the title, 1 the artist and
      anything else the album. */
  datatype TagEditState = TagEditState(
    filePath: string, title: string, artist: string, album: string, activeField: nat)

  datatype InputMode = PlaylistSave | EqSave | PlaylistRename(oldName: string)

  datatype InputState = InputState(mode: InputMode, title: string, value: string)

  datatype LibraryItemType = Artist | Album | Song | Folder | Playlist

  datatype LibraryItem = LibraryItem(
    name: string, itemType: LibraryItemType, artist: Option<string>,
    durationMs: Option<nat>, path: Option<string>)

  datatype QueueItem = QueueItem(
    title: string, artist: string, durationMs: nat, isCurrent: bool, filePath: string)

  /** The EQ panel's part of `App`: the live sliders and band cursor, the
      preset list and selection, the preamp, balance, crossfade and
      replay-gain settings, and the gains shared with the audio thread. */
  datatype EqState = EqState(
    bands: seq<real>,
    selected: nat,
    enabled: bool,
    preset: nat,
    preampDb: real,
    balance: real,
    crossfadeSecs: nat,
    replayGainMode: nat,
    gains: Dsp.EqGains,
    presets: seq<Config.EqPreset>,
    presetName: string)

  /** The output-device part of `App`: the device in use, the known
      devices and the cursor into them. */
  datatype DeviceState = DeviceState(output: string, devices: seq<string>, cursor: nat)

  /** The seek-sequence part of `App`; `id` is the generation counter that
      background seeks compare against. */
  datatype SeekState = SeekState(accumulator: real, lastTimeMs: Option<nat>, initialPos: Option<real>, id: nat)

  /** The library-panel part of `App`. */
  datatype LibraryState = LibraryState(
    mode: LibraryMode,
    previousMode: Option<LibraryMode>,
    items: seq<LibraryItem>,
    selected: nat,
    browsePath: seq<string>,
    searchQuery: string,
    searchActive: bool,
    playlists: seq<string>,
    queue: seq<QueueItem>)

  /** The lyrics-panel part of `App`: the fetch state, the manual selection
      and scroll offset, and when the user last scrolled. */
  datatype LyricsView = LyricsView(
    state: LyricsState, offset: Option<nat>, selected: Option<nat>, lastScrollTimeMs: Option<nat>)

  /** The fields of `App` that the modelled operations read or write,
      grouped by the panel that owns them. Instants are milliseconds on one
      monotonic clock. */
  datatype App = App(
    keys: Keys.KeyConfig,
    track: Option<Player.TrackInfo>,
    lastTrackUpdateMs: Option<nat>,
    viewMode: ViewMode,
    lyrics: LyricsView,
    seek: SeekState,
    library: LibraryState,
    eq: EqState,
    audio: DeviceState,
    appVolume: nat,
    lastVolumeActionMs: Option<nat>,
    tagEdit: Option<TagEditState>,
    inputState: Option<InputState>,
    shuffle: bool,
    repeat: Player.RepeatMode,
    musicDirectory: string)

  /** The shapes the Rust types fix: ten bands everywhere, a band cursor
      below ten. */
  ghost predicate Valid(eq: EqState) {
    && |eq.bands| == Dsp.BAND_COUNT
    && eq.selected < Dsp.BAND_COUNT
    && eq.gains.Valid()
    && forall i :: 0 <= i < |eq.presets| ==> |eq.presets[i].bands| == Dsp.BAND_COUNT
  }

  // ---------------------------------------------------------------------
  // Tag editor
  // ---------------------------------------------------------------------

  function NewTagEdit(path: string, title: string, artist: string, album: string): (t: TagEditState)
    ensures t.activeField == 0 && t.title == title && t.filePath == path
  {
    TagEditState(path, title, artist, album, 0)
  }

  /** The text the cursor is in. */
  function ActiveValue(t: TagEditState): (v: string)
    ensures t.activeField == 0 ==> v == t.title
    ensures t.activeField == 1 ==> v == t.artist
    ensures t.activeField >= 2 ==> v == t.album
  {
    match t.activeField
    case 0 => t.title
    case 1 => t.artist
    case _ => t.album
  }

  function NextField(t: TagEditState): (r: TagEditState)
    ensures r.activeField < 3
    ensures r == t.(activeField := r.activeField)
  {
    t.(activeField := (t.activeField + 1) % 3)
  }

  function PrevField(t: TagEditState): (r: TagEditState)
    ensures t.activeField <= 3 ==> r.activeField < 3
    ensures r == t.(activeField := r.activeField)
  {
    t.(activeField := if t.activeField == 0 then 2 else t.activeField - 1)
  }

  /** On the three real fields, next and previous undo each other and three
      steps forward come back to the start. */
  lemma FieldCycle(t: TagEditState)
    requires t.activeField < 3
    ensures PrevField(NextField(t)) == t
    ensures NextField(PrevField(t)) == t
    ensures NextField(NextField(NextField(t))) == t
  {
  }

  // ---------------------------------------------------------------------
  // Playback position
  // ---------------------------------------------------------------------

  /** Milliseconds from `earlier` to `now`, zero if the clock reads earlier
      (`Instant::elapsed` saturates). */
  function Elapsed(earlier: nat, now: nat): (r: nat)
    ensures earlier <= now ==> earlier + r == now
    ensures now < earlier ==> r == 0
  {
    if now >= earlier then now - earlier else 0
  }

  /** `get_current_position_ms` at clock reading `nowMs`: while playing, the
      last reported position advanced by the time since that report, capped
      at the duration. */
  function CurrentPositionMs(app: App, nowMs: nat): (r: nat)
    ensures app.track.None? ==> r == 0
    ensures app.track.Some? && (app.track.value.state != Player.Playing || app.lastTrackUpdateMs.None?)
      ==> r == app.track.value.positionMs
    ensures app.track.Some? && app.track.value.state == Player.Playing && app.lastTrackUpdateMs.Some?
      ==> var p := app.track.value.positionMs + Elapsed(app.lastTrackUpdateMs.value, nowMs);
          && (p < app.track.value.durationMs ==> r == p)
          && (p >= app.track.value.durationMs ==> r == app.track.value.durationMs)
  {
    match app.track
    case None => 0
    case Some(t) =>
      if t.state == Player.Playing && app.lastTrackUpdateMs.Some? then
        var p := t.positionMs + Elapsed(app.lastTrackUpdateMs.value, nowMs);
        if p < t.durationMs then p else t.durationMs
      else t.positionMs
  }

  /** The estimated position never moves backwards as the clock advances. */
  lemma PositionMonotone(app: App, t1: nat, t2: nat)
    requires t1 <= t2
    ensures CurrentPositionMs(app, t1) <= CurrentPositionMs(app, t2)
  {
  }

  /** While a playing track has not reached its end, the estimate keeps
      pace with the clock: `d` more milliseconds on the clock add `d` to the
      position, until the duration caps it. */
  lemma PositionKeepsPace(app: App, nowMs: nat, d: nat)
    requires app.track.Some? && app.track.value.state == Player.Playing
    requires app.lastTrackUpdateMs.Some? && app.lastTrackUpdateMs.value <= nowMs
    ensures CurrentPositionMs(app, nowMs + d) ==
      if CurrentPositionMs(app, nowMs) + d < app.track.value.durationMs then CurrentPositionMs(app, nowMs) + d
      else app.track.value.durationMs
  {
  }

  // ---------------------------------------------------------------------
  // EQ and DSP synchronisation
  // ---------------------------------------------------------------------

  /** `sync_eq_to_dsp`: push every band and the enabled flag to the DSP. */
  function SyncEqToDsp(eq: EqState): (r: EqState)
    requires |eq.bands| == Dsp.BAND_COUNT
    ensures r.gains.Valid()
    ensures forall i :: 0 <= i < Dsp.BAND_COUNT ==> Dsp.DbToValue(r.gains.gains[i]) == eq.bands[i]
    ensures r.gains.enabled == eq.enabled
    ensures r.gains.preampDb == eq.gains.preampDb && r.gains.balance == eq.gains.balance
    ensures r == eq.(gains := r.gains)
  {
    eq.(gains := Dsp.SetEnabled(Dsp.SetAllFromValues(eq.gains, eq.bands), eq.enabled))
  }

  /** `sync_band_to_dsp`: push one band; out-of-range indices do nothing. */
  function SyncBandToDsp(eq: EqState, band: nat): (r: EqState)
    requires Valid(eq)
    ensures Valid(r)
    ensures band >= Dsp.BAND_COUNT ==> r == eq
    ensures band < Dsp.BAND_COUNT && 0.0 <= eq.bands[band] <= 1.0
      ==> Dsp.DbToValue(r.gains.gains[band]) == eq.bands[band]
    ensures forall i :: 0 <= i < Dsp.BAND_COUNT && i != band ==> r.gains.gains[i] == eq.gains.gains[i]
    ensures r == eq.(gains := r.gains)
  {
    if band < Dsp.BAND_COUNT then
      Dsp.DbToValueInvertsValueToDb(eq.bands[band]);
      eq.(gains := Dsp.SetGainFromValue(eq.gains, band, eq.bands[band]))
    else eq
  }

  /** Position of the first preset called `name`. */
  function PresetIndex(presets: seq<Config.EqPreset>, name: string): (r: Option<nat>)
    ensures r.Some? ==> r.value < |presets| && presets[r.value].name == name
    ensures r.Some? ==> forall j :: 0 <= j < r.value ==> presets[j].name != name
    ensures r.None? <==> forall j :: 0 <= j < |presets| ==> presets[j].name != name
  {
    Lists.FindIndex((p: Config.EqPreset) => p.name == name, presets)
  }

  /** `reset_eq`: flat bands, the first "Custom" preset flattened too, "Flat"
      selected when it exists, and every DSP gain at 0 dB. */
  function ResetEq(eq: EqState): (r: EqState)
    requires Valid(eq)
    ensures Valid(r)
    ensures r.bands == Config.FlatBands()
    ensures |r.presets| == |eq.presets|
    ensures forall i :: 0 <= i < |eq.presets| ==> r.presets[i].name == eq.presets[i].name
    ensures forall i :: 0 <= i < |eq.presets| && Some(i) != PresetIndex(eq.presets, "Custom") ==>
              r.presets[i] == eq.presets[i]
    ensures PresetIndex(eq.presets, "Custom").Some?
      ==> r.presets[PresetIndex(eq.presets, "Custom").value].bands == Config.FlatBands()
    ensures PresetIndex(eq.presets, "Flat").Some?
      ==> r.preset < |r.presets| && r.presets[r.preset].name == "Flat" && r.presetName == "Flat"
    ensures PresetIndex(eq.presets, "Flat").None?
      ==> r.preset == eq.preset && r.presetName == eq.presetName
    ensures forall i :: 0 <= i < Dsp.BAND_COUNT ==> r.gains.gains[i] == 0.0
  {
    var presets := match PresetIndex(eq.presets, "Custom")
      case Some(c) => eq.presets[c := eq.presets[c].(bands := Config.FlatBands())]
      case None => eq.presets;
    var eq1 := eq.(bands := Config.FlatBands(), presets := presets, gains := Dsp.Reset(eq.gains));
    match PresetIndex(presets, "Flat")
    case Some(f) => eq1.(preset := f, presetName := "Flat")
    case None => eq1
  }

  /** `toggle_eq`: flip the enabled flag in the UI and in the DSP. */
  function ToggleEq(eq: EqState): (r: EqState)
    ensures r.enabled == !eq.enabled
    ensures r.gains.enabled == r.enabled
    ensures r.gains == eq.gains.(enabled := r.enabled)
    ensures r == eq.(enabled := r.enabled, gains := r.gains)
  {
    var e := !eq.enabled;
    eq.(enabled := e, gains := Dsp.SetEnabled(eq.gains, e))
  }

  /** Toggling twice restores a state whose DSP flag agrees with the UI. */
  lemma ToggleEqTwice(eq: EqState)
    requires eq.gains.enabled == eq.enabled
    ensures ToggleEq(ToggleEq(eq)) == eq
  {
  }

  // ---------------------------------------------------------------------
  // Presets
  // ---------------------------------------------------------------------

  /** `apply_preset`: copy the selected preset's bands and name, if the
      index is in range. */
  function ApplyPreset(eq: EqState): (r: EqState)
    requires Valid(eq)
    ensures Valid(r)
    ensures r.presets == eq.presets && r.preset == eq.preset
    ensures eq.preset < |eq.presets| ==>
      r.bands == eq.presets[eq.preset].bands && r.presetName == eq.presets[eq.preset].name
    ensures eq.preset >= |eq.presets| ==> r == eq
  {
    if eq.preset < |eq.presets| then
      var p := eq.presets[eq.preset];
      SyncEqToDsp(eq.(bands := p.bands, presetName := p.name))
    else eq
  }

  /** `next_preset`. The source divides by the preset count, so the list
      must not be empty. */
  function NextPreset(eq: EqState): (r: EqState)
    requires Valid(eq) && |eq.presets| > 0
    ensures Valid(r)
    ensures r.presets == eq.presets
    ensures r.preset == (eq.preset + 1) % |eq.presets|
    ensures eq.preset < |eq.presets| ==> r.preset == StepCursor(eq.preset, |eq.presets|, true)
    ensures r.bands == eq.presets[r.preset].bands && r.presetName == eq.presets[r.preset].name
  {
    ApplyPreset(eq.(preset := (eq.preset + 1) % |eq.presets|))
  }

  /** `prev_preset`: wraps from the first preset to the last. */
  function PrevPreset(eq: EqState): (r: EqState)
    requires Valid(eq) && |eq.presets| > 0
    ensures Valid(r)
    ensures r.presets == eq.presets
    ensures eq.preset == 0 ==> r.preset == |eq.presets| - 1
    ensures eq.preset > 0 ==> r.preset == eq.preset - 1
    ensures eq.preset < |eq.presets| ==> r.preset == StepCursor(eq.preset, |eq.presets|, false)
    ensures r.preset < |eq.presets| ==>
      r.bands == eq.presets[r.preset].bands && r.presetName == eq.presets[r.preset].name
  {
    ApplyPreset(eq.(preset := if eq.preset == 0 then |eq.presets| - 1 else eq.preset - 1))
  }

  /** Previous undoes next, and next undoes previous, on an in-range index. */
  lemma NextPrevInverse(eq: EqState)
    requires Valid(eq) && eq.preset < |eq.presets|
    ensures PrevPreset(NextPreset(eq)).preset == eq.preset
    ensures NextPreset(PrevPreset(eq)).preset == eq.preset
  {
    StepCursorInverse(eq.preset, |eq.presets|);
  }

  /** `get_preset_name`, with "Unknown" for an out-of-range index. */
  function PresetName(eq: EqState): (r: string)
    ensures eq.preset < |eq.presets| ==> r == eq.presets[eq.preset].name
    ensures eq.preset >= |eq.presets| ==> r == "Unknown"
  {
    if eq.preset < |eq.presets| then eq.presets[eq.preset].name else "Unknown"
  }

  /** `mark_custom`: select "Custom" and store the live bands in it,
      inserting a new "Custom" preset at the front if there is none. */
  function MarkCustom(eq: EqState): (r: EqState)
    requires Valid(eq)
    ensures Valid(r)
    ensures r.preset < |r.presets|
    ensures r.presets[r.preset] == Config.EqPreset("Custom", eq.bands)
    ensures r.presetName == "Custom"
    ensures PresetIndex(eq.presets, "Custom").Some? ==>
      && r.preset == PresetIndex(eq.presets, "Custom").value
      && |r.presets| == |eq.presets|
      && forall i :: 0 <= i < |eq.presets| && i != r.preset ==> r.presets[i] == eq.presets[i]
    ensures PresetIndex(eq.presets, "Custom").None? ==>
      r.presets == [Config.EqPreset("Custom", eq.bands)] + eq.presets && r.preset == 0
    ensures r.bands == eq.bands && r.gains == eq.gains
  {
    match PresetIndex(eq.presets, "Custom")
    case Some(c) =>
      eq.(preset := c, presetName := "Custom", presets := eq.presets[c := Config.EqPreset("Custom", eq.bands)])
    case None =>
      eq.(presets := [Config.EqPreset("Custom", eq.bands)] + eq.presets, preset := 0, presetName := "Custom")
  }

  /** Marking twice is the same as marking once. */
  lemma MarkCustomIdempotent(eq: EqState)
    requires Valid(eq)
    ensures MarkCustom(MarkCustom(eq)) == MarkCustom(eq)
  {
    var m := MarkCustom(eq);
    var c := m.preset;
    assert m.presets[c].name == "Custom";
    assert forall j :: 0 <= j < c ==> m.presets[j].name != "Custom";
    assert PresetIndex(m.presets, "Custom") == Some(c);
    assert m.presets[c := Config.EqPreset("Custom", m.bands)] == m.presets;
  }

  /** `save_preset`: append the live bands under `name` and select them. */
  function SavePreset(eq: EqState, name: string): (r: EqState)
    requires Valid(eq)
    ensures Valid(r)
    ensures r.presets == eq.presets + [Config.EqPreset(name, eq.bands)]
    ensures r.preset == |eq.presets| && r.presetName == name
    ensures r.bands == eq.bands
  {
    eq.(presets := eq.presets + [Config.EqPreset(name, eq.bands)], preset := |eq.presets|, presetName := name)
  }

  const ERR_BUILTIN: string := "Cannot delete built-in preset"
  const ERR_NO_SELECTION: string := "No preset selected"

  /** `delete_preset`: refuse to delete a built-in preset or when nothing is
      selected; otherwise remove the selected preset, keep the index unless
      it fell off the end, and apply the preset now selected. On `Err` the
      state is left as it was. */
  function DeletePreset(eq: EqState): (r: Result<EqState, string>)
    requires Valid(eq)
    ensures r.Err? <==> eq.preset >= |eq.presets| || Config.IsDefaultName(eq.presets[eq.preset].name)
    ensures r.Err? && eq.preset >= |eq.presets| ==> r.error == ERR_NO_SELECTION
    ensures r.Err? && eq.preset < |eq.presets| ==> r.error == ERR_BUILTIN
    ensures r.Ok? ==> Valid(r.value)
    ensures r.Ok? ==> r.value.presets == eq.presets[..eq.preset] + eq.presets[eq.preset + 1..]
    ensures r.Ok? && eq.preset < |r.value.presets| ==> r.value.preset == eq.preset
    ensures r.Ok? && eq.preset == |r.value.presets| && |r.value.presets| > 0
      ==> r.value.preset == |r.value.presets| - 1
    ensures r.Ok? && r.value.preset < |r.value.presets|
      ==> r.value.bands == r.value.presets[r.value.preset].bands
  {
    if eq.preset < |eq.presets| then
      var name := eq.presets[eq.preset].name;
      if Config.IsDefaultName(name) then Err(ERR_BUILTIN)
      else
        var presets := eq.presets[..eq.preset] + eq.presets[eq.preset + 1..];
        var idx := if eq.preset >= |presets| then (if |presets| > 0 then |presets| - 1 else 0) else eq.preset;
        Ok(ApplyPreset(eq.(presets := presets, preset := idx)))
    else Err(ERR_NO_SELECTION)
  }

  /** Deleting a just-saved user preset restores the preset list. */
  lemma DeleteUndoesSave(eq: EqState, name: string)
    requires Valid(eq) && !Config.IsDefaultName(name)
    ensures DeletePreset(SavePreset(eq, name)).Ok?
    ensures DeletePreset(SavePreset(eq, name)).value.presets == eq.presets
  {
    var s := SavePreset(eq, name);
    assert s.presets[s.preset].name == name;
    assert s.presets[..s.preset] == eq.presets;
  }

  // ---------------------------------------------------------------------
  // Persistence
  // ---------------------------------------------------------------------

  /** The user's own presets: those whose name is not a built-in one. */
  function UserPresets(presets: seq<Config.EqPreset>): (r: seq<Config.EqPreset>)
    ensures forall i :: 0 <= i < |r| ==> !Config.IsDefaultName(r[i].name) && r[i] in presets
  {
    Lists.Filter((p: Config.EqPreset) => !Config.IsDefaultName(p.name), presets)
  }

  /** `save_state`: the record written to disk. It carries no volume, so
      the volume reads back as the field default. */
  function SaveState(eq: EqState): (s: Config.PersistentState)
    ensures s.lastPresetName == PresetName(eq)
    ensures s.eqBands == eq.bands && s.eqEnabled == eq.enabled
    ensures s.preampDb == eq.preampDb && s.balance == eq.balance
    ensures s.crossfade == eq.crossfadeSecs && s.replayGainMode == eq.replayGainMode
    ensures s.volume == Config.DEFAULT_VOLUME
    ensures forall i :: 0 <= i < |s.presets| ==> !Config.IsDefaultName(s.presets[i].name)
  {
    Config.PersistentState(
      PresetName(eq), eq.enabled, eq.bands, eq.preampDb, eq.balance,
      eq.crossfadeSecs, eq.replayGainMode, Config.DEFAULT_VOLUME, UserPresets(eq.presets))
  }

  /** The EQ part of `App::new`: built-in presets followed by the saved
      ones, the last-used preset selected by name (the first preset if it is
      gone), and the DSP synchronised with the loaded bands but not with the
      loaded preamp or balance. */
  function LoadEq(s: Config.PersistentState): (eq: EqState)
    requires Config.WellTyped(s)
    ensures Valid(eq)
    ensures eq.presets == Config.DefaultPresets() + s.presets
    ensures eq.preset < |eq.presets|
    ensures PresetIndex(eq.presets, s.lastPresetName).Some? ==>
              eq.presets[eq.preset].name == s.lastPresetName
    ensures PresetIndex(eq.presets, s.lastPresetName).None? ==> eq.preset == 0
    ensures eq.presetName == s.lastPresetName
    ensures eq.bands == s.eqBands && eq.enabled == s.eqEnabled && eq.selected == 0
    ensures eq.preampDb == s.preampDb && eq.balance == s.balance
    ensures eq.crossfadeSecs == s.crossfade && eq.replayGainMode == s.replayGainMode
    ensures eq.gains.enabled == s.eqEnabled
    ensures eq.gains.preampDb == 0.0 && eq.gains.balance == 0.0
  {
    var presets := Config.DefaultPresets() + s.presets;
    var idx := match PresetIndex(presets, s.lastPresetName)
      case Some(i) => i
      case None => 0;
    SyncEqToDsp(EqState(
      s.eqBands, 0, s.eqEnabled, idx, s.preampDb, s.balance, s.crossfade, s.replayGainMode,
      Dsp.NewGains(), presets, s.lastPresetName))
  }

  /** `App::new` from a loaded state, the key bindings, the current output
      device name and the enumerated devices: the lyrics view, the queue
      tab, volume 100, repeat off, and the EQ from `LoadEq`. */
  function NewApp(s: Config.PersistentState, keys: Keys.KeyConfig, output: string,
                  devices: seq<string>, musicDirectory: string): (app: App)
    requires Config.WellTyped(s)
    ensures app.eq == LoadEq(s)
    ensures app.viewMode == Lyrics && app.library.mode == Queue && app.lyrics.state == Idle
    ensures app.appVolume == 100 && app.repeat == Player.Off && !app.shuffle
    ensures app.audio == DeviceState(output, devices, 0)
    ensures DeviceCursorValid(app.audio)
  {
    App(
      keys, None, None, Lyrics,
      LyricsView(Idle, None, None, None),
      SeekState(0.0, None, None, 0),
      LibraryState(Queue, None, [], 0, [], "", false, [], []),
      LoadEq(s),
      DeviceState(output, devices, 0),
      100, None, None, None, false, Player.Off, musicDirectory)
  }

  /** The saved record fits the Rust field types whenever the state does. */
  lemma SaveStateWellTyped(eq: EqState)
    requires Valid(eq)
    requires eq.crossfadeSecs <= 0xFFFF_FFFF && eq.replayGainMode <= 0xFF
    ensures Config.WellTyped(SaveState(eq))
  {
    var s := SaveState(eq);
    forall i | 0 <= i < |s.presets| ensures |s.presets[i].bands| == 10 {
      assert s.presets[i] in eq.presets;
    }
  }

  /** Saving and loading again selects a preset with the same name and
      restores the live EQ settings. */
  lemma SaveThenLoadKeepsSelection(eq: EqState)
    requires Valid(eq) && eq.preset < |eq.presets|
    requires eq.crossfadeSecs <= 0xFFFF_FFFF && eq.replayGainMode <= 0xFF
    ensures Config.WellTyped(SaveState(eq))
    ensures var b := LoadEq(SaveState(eq));
      && PresetName(b) == PresetName(eq)
      && b.bands == eq.bands && b.enabled == eq.enabled
      && b.preampDb == eq.preampDb && b.balance == eq.balance
      && b.crossfadeSecs == eq.crossfadeSecs && b.replayGainMode == eq.replayGainMode
  {
    SaveStateWellTyped(eq);
    var s := SaveState(eq);
    var name := PresetName(eq);
    var defaults := Config.DefaultPresets();
    var presets := defaults + s.presets;
    if Config.IsDefaultName(name) {
      var j :| 0 <= j < |defaults| && defaults[j].name == name;
      assert presets[j].name == name;
    } else {
      var p := eq.presets[eq.preset];
      UserPresetKept(eq.presets, eq.preset);
      var k :| 0 <= k < |s.presets| && s.presets[k] == p;
      assert presets[|defaults| + k].name == name;
    }
  }

  /** A user preset survives the filter. */
  lemma {:induction false} UserPresetKept(presets: seq<Config.EqPreset>, i: nat)
    requires i < |presets| && !Config.IsDefaultName(presets[i].name)
    ensures presets[i] in UserPresets(presets)
  {
    Lists.FilterKeeps((p: Config.EqPreset) => !Config.IsDefaultName(p.name), presets, i);
  }

  /** Filtering the built-ins followed by user presets leaves the user
      presets. */
  lemma UserPresetsOfLoaded(user: seq<Config.EqPreset>)
    requires forall i :: 0 <= i < |user| ==> !Config.IsDefaultName(user[i].name)
    ensures UserPresets(Config.DefaultPresets() + user) == user
  {
    var f := (p: Config.EqPreset) => !Config.IsDefaultName(p.name);
    var d := Config.DefaultPresets();
    Lists.FilterAppend(f, d, user);
    forall i | 0 <= i < |d| ensures !f(d[i]) {
      assert Config.IsDefaultName(d[i].name);
    }
    Lists.FilterAllOrNone(f, d);
    Lists.FilterAllOrNone(f, user);
  }

  /** When the list is the built-ins followed by user presets, saving and
      loading again rebuilds exactly the same list. */
  lemma SaveThenLoadKeepsPresets(eq: EqState, user: seq<Config.EqPreset>)
    requires Valid(eq)
    requires eq.presets == Config.DefaultPresets() + user
    requires forall i :: 0 <= i < |user| ==> !Config.IsDefaultName(user[i].name)
    requires eq.crossfadeSecs <= 0xFFFF_FFFF && eq.replayGainMode <= 0xFF
    ensures Config.WellTyped(SaveState(eq))
    ensures LoadEq(SaveState(eq)).presets == eq.presets
  {
    SaveStateWellTyped(eq);
    UserPresetsOfLoaded(user);
  }

  // ---------------------------------------------------------------------
  // Preamp, balance and crossfade
  // ---------------------------------------------------------------------

  /** `adjust_preamp`: step and clamp to [-12, 12] dB, mirrored in the DSP. */
  function AdjustPreamp(eq: EqState, delta: real): (r: EqState)
    ensures Dsp.MIN_DB <= r.preampDb <= Dsp.MAX_DB
    ensures Dsp.MIN_DB <= eq.preampDb + delta <= Dsp.MAX_DB ==> r.preampDb == eq.preampDb + delta
    ensures eq.preampDb + delta > Dsp.MAX_DB ==> r.preampDb == Dsp.MAX_DB
    ensures eq.preampDb + delta < Dsp.MIN_DB ==> r.preampDb == Dsp.MIN_DB
    ensures r.gains.preampDb == r.preampDb
    ensures r == eq.(preampDb := r.preampDb, gains := r.gains)
  {
    var p := Dsp.Clamp(eq.preampDb + delta, Dsp.MIN_DB, Dsp.MAX_DB);
    eq.(preampDb := p, gains := Dsp.SetPreampDb(eq.gains, p))
  }

  /** `reset_preamp`. */
  function ResetPreamp(eq: EqState): (r: EqState)
    ensures r.preampDb == 0.0 && r.gains.preampDb == 0.0
    ensures r == eq.(preampDb := 0.0, gains := r.gains)
  {
    eq.(preampDb := 0.0, gains := Dsp.SetPreampDb(eq.gains, 0.0))
  }

  /** `adjust_balance`: step and clamp to [-1, 1], mirrored in the DSP. */
  function AdjustBalance(eq: EqState, delta: real): (r: EqState)
    ensures Dsp.MIN_BALANCE <= r.balance <= Dsp.MAX_BALANCE
    ensures Dsp.MIN_BALANCE <= eq.balance + delta <= Dsp.MAX_BALANCE ==> r.balance == eq.balance + delta
    ensures eq.balance + delta > Dsp.MAX_BALANCE ==> r.balance == Dsp.MAX_BALANCE
    ensures eq.balance + delta < Dsp.MIN_BALANCE ==> r.balance == Dsp.MIN_BALANCE
    ensures r.gains.balance == r.balance
    ensures r == eq.(balance := r.balance, gains := r.gains)
  {
    var b := Dsp.Clamp(eq.balance + delta, Dsp.MIN_BALANCE, Dsp.MAX_BALANCE);
    eq.(balance := b, gains := Dsp.SetBalance(eq.gains, b))
  }

  /** `reset_balance`. */
  function ResetBalance(eq: EqState): (r: EqState)
    ensures r.balance == 0.0 && r.gains.balance == 0.0
    ensures r == eq.(balance := 0.0, gains := r.gains)
  {
    eq.(balance := 0.0, gains := Dsp.SetBalance(eq.gains, 0.0))
  }

  /** A step and the opposite step cancel when neither hits a clamp. */
  lemma AdjustInverse(eq: EqState, delta: real)
    requires Dsp.MIN_DB <= eq.preampDb <= Dsp.MAX_DB && Dsp.MIN_DB <= eq.preampDb + delta <= Dsp.MAX_DB
    requires Dsp.MIN_BALANCE <= eq.balance <= Dsp.MAX_BALANCE
    requires Dsp.MIN_BALANCE <= eq.balance + delta <= Dsp.MAX_BALANCE
    ensures AdjustPreamp(AdjustPreamp(eq, delta), -delta).preampDb == eq.preampDb
    ensures AdjustBalance(AdjustBalance(eq, delta), -delta).balance == eq.balance
  {
  }

  /** `toggle_crossfade`: 0 -> 2 -> 4 -> 6 -> 0 seconds. */
  function NextCrossfade(secs: nat): (r: nat)
    ensures r in {0, 2, 4, 6}
    ensures secs in {0, 2, 4} ==> r == secs + 2
    ensures secs !in {0, 2, 4} ==> r == 0
  {
    match secs
    case 0 => 2
    case 2 => 4
    case 4 => 6
    case _ => 0
  }

  /** `toggle_crossfade`: step the crossfade through 0, 2, 4, 6 seconds
      and back to 0; nothing else changes. */
  function ToggleCrossfade(eq: EqState): (r: EqState)
    ensures r == eq.(crossfadeSecs := r.crossfadeSecs)
    ensures r.crossfadeSecs in {0, 2, 4, 6}
    ensures eq.crossfadeSecs in {0, 2, 4} ==> r.crossfadeSecs == eq.crossfadeSecs + 2
    ensures eq.crossfadeSecs !in {0, 2, 4} ==> r.crossfadeSecs == 0
  {
    eq.(crossfadeSecs := NextCrossfade(eq.crossfadeSecs))
  }

  /** Four presses return to any of the four settings, and every other value
      joins the cycle at 0 after one press. */
  lemma CrossfadeCycle(secs: nat)
    ensures secs in {0, 2, 4, 6} ==> NextCrossfade(NextCrossfade(NextCrossfade(NextCrossfade(secs)))) == secs
    ensures secs !in {0, 2, 4, 6} ==> NextCrossfade(secs) == 0
  {
  }

  // ---------------------------------------------------------------------
  // Output devices
  // ---------------------------------------------------------------------

  function DeviceIndex(devices: seq<string>, name: string): (r: Option<nat>)
    ensures r.Some? ==> r.value < |devices| && devices[r.value] == name
    ensures r.Some? ==> forall j :: 0 <= j < r.value ==> devices[j] != name
    ensures r.None? <==> name !in devices
  {
    var r := Lists.FindIndex((d: string) => d == name, devices);
    assert r.None? ==> forall j :: 0 <= j < |devices| ==> devices[j] != name;
    r
  }

  /** The device cursor points into the list whenever the list is non-empty
      (indexing relies on it). */
  predicate DeviceCursorValid(d: DeviceState) {
    d.devices != [] ==> d.cursor < |d.devices|
  }

  /** `refresh_devices` given the newly enumerated list: an empty list
      changes nothing; otherwise the cursor follows the current device to
      its new position (or falls back to 0 if it ran off the end), and a
      device that disappeared is replaced by the one under the cursor. */
  function RefreshDevices(d: DeviceState, newList: seq<string>): (r: DeviceState)
    ensures newList == [] ==> r == d
    ensures newList != [] ==>
      && r.devices == newList
      && r.cursor < |newList|
      && newList[r.cursor] == r.output
    ensures d.output in newList ==> r.output == d.output
    ensures newList != [] && d.output !in newList && d.cursor < |newList| ==>
              r.cursor == d.cursor
    ensures DeviceCursorValid(d) ==> DeviceCursorValid(r)
    ensures r == d.(devices := r.devices, cursor := r.cursor, output := r.output)
  {
    if newList == [] then d
    else
      var idx := match DeviceIndex(newList, d.output)
        case Some(i) => i
        case None => if d.cursor >= |newList| then 0 else d.cursor;
      var out := if d.output in newList then d.output else newList[idx];
      d.(cursor := idx, devices := newList, output := out)
  }

  /** The cursor after one step forwards (`forward`) or backwards in a list
      of `n` devices. */
  function StepCursor(i: nat, n: nat, forward: bool): (r: nat)
    requires i < n
    ensures r < n
    ensures forward && i + 1 < n ==> r == i + 1
    ensures forward && i + 1 == n ==> r == 0
    ensures !forward && i > 0 ==> r == i - 1
    ensures !forward && i == 0 ==> r == n - 1
  {
    if forward then (i + 1) % n
    else if i == 0 then n - 1 else i - 1
  }

  /** The cursor after `k` steps forwards. */
  function StepsForward(i: nat, n: nat, k: nat): (r: nat)
    requires i < n
    ensures r < n
    decreases k
  {
    if k == 0 then i else StepsForward(StepCursor(i, n, true), n, k - 1)
  }

  /** Short of the end of the list, each step moves exactly one place. */
  lemma {:induction false} StepsForwardBelowEnd(i: nat, n: nat, k: nat)
    requires i + k < n
    ensures StepsForward(i, n, k) == i + k
    decreases k
  {
    if k > 0 {
      StepsForwardBelowEnd(i + 1, n, k - 1);
    }
  }

  /** Steps compose. */
  lemma {:induction false} StepsForwardAdd(i: nat, n: nat, a: nat, b: nat)
    requires i < n
    ensures StepsForward(i, n, a + b) == StepsForward(StepsForward(i, n, a), n, b)
    decreases a
  {
    if a > 0 {
      StepsForwardAdd(StepCursor(i, n, true), n, a - 1, b);
    }
  }

  /** Stepping forwards from any position reaches every position within
      fewer than `n` steps, and `n` steps close the cycle: next-preset and
      next-device visit every entry in turn. */
  lemma StepsForwardCycle(i: nat, n: nat, j: nat)
    requires i < n && j < n
    ensures StepsForward(i, n, n) == i
    ensures exists k :: 0 <= k < n && StepsForward(i, n, k) == j
  {
    var a := n - 1 - i;
    StepsForwardBelowEnd(i, n, a);
    StepsForwardBelowEnd(0, n, i);
    StepsForwardBelowEnd(0, n, j);
    StepsForwardAdd(i, n, a, 1 + i);
    assert StepsForward(n - 1, n, 1 + i) == StepsForward(0, n, i);
    if j >= i {
      StepsForwardBelowEnd(i, n, j - i);
      assert StepsForward(i, n, j - i) == j;
    } else {
      StepsForwardAdd(i, n, a, 1 + j);
      assert StepsForward(n - 1, n, 1 + j) == StepsForward(0, n, j);
      assert StepsForward(i, n, a + 1 + j) == j;
    }
  }

  /** A step forwards and a step backwards cancel. */
  lemma StepCursorInverse(i: nat, n: nat)
    requires i < n
    ensures StepCursor(StepCursor(i, n, true), n, false) == i
    ensures StepCursor(StepCursor(i, n, false), n, true) == i
  {
  }

  /** `next_device` (`forward`) and `prev_device`: refresh with `newList`,
      step the cursor cyclically, and adopt that device as the output if the
      switch (`switched`) succeeded. */
  function CycleDevice(d: DeviceState, newList: seq<string>, forward: bool, switched: bool): (r: DeviceState)
    requires DeviceCursorValid(d)
    ensures DeviceCursorValid(r)
    ensures var a := RefreshDevices(d, newList);
      && r.devices == a.devices
      && (a.devices != [] ==> r.cursor == StepCursor(a.cursor, |a.devices|, forward))
      && (a.devices == [] ==> r == a)
      && (!switched ==> r.output == a.output)
    ensures r.devices != [] && switched ==> r.output == r.devices[r.cursor]
    ensures r == d.(devices := r.devices, cursor := r.cursor, output := r.output)
  {
    var a := RefreshDevices(d, newList);
    if a.devices != [] then
      var i := StepCursor(a.cursor, |a.devices|, forward);
      var a1 := a.(cursor := i);
      if switched then a1.(output := a.devices[i]) else a1
    else a
  }

  /** Device names are pairwise distinct. */
  predicate Distinct(names: seq<string>) {
    forall i, j :: 0 <= i < j < |names| ==> names[i] != names[j]
  }

  /** Refreshing with a list of distinct names that holds the current device
      puts the cursor on that device's one position. */
  lemma RefreshFindsDevice(d: DeviceState, devices: seq<string>, k: nat)
    requires Distinct(devices) && k < |devices| && devices[k] == d.output
    ensures RefreshDevices(d, devices).cursor == k
    ensures RefreshDevices(d, devices).output == d.output
  {
    var r := RefreshDevices(d, devices);
    var j := r.cursor;
    assert devices[j] == devices[k];
  }

  /** With a stable list of distinct names holding the current device at
      position `k`, next followed by previous (both switches succeeding)
      returns to the same device and cursor, and so does previous followed
      by next. */
  lemma NextThenPrevDevice(d: DeviceState, devices: seq<string>, k: nat)
    requires DeviceCursorValid(d)
    requires Distinct(devices) && k < |devices| && devices[k] == d.output
    ensures var b := CycleDevice(CycleDevice(d, devices, true, true), devices, false, true);
      b.output == d.output && b.cursor == k
    ensures var b := CycleDevice(CycleDevice(d, devices, false, true), devices, true, true);
      b.output == d.output && b.cursor == k
  {
    RefreshFindsDevice(d, devices, k);
    var f := CycleDevice(d, devices, true, true);
    RefreshFindsDevice(f, devices, f.cursor);
    var p := CycleDevice(d, devices, false, true);
    RefreshFindsDevice(p, devices, p.cursor);
  }
}
