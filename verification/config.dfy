/** Factory presets and the persisted session state with its field defaults
    (src/app/config.rs). Reading and writing the TOML files is outside the
    model: a file arrives here already parsed, or as a parse failure. */
module Config {
  import opened Wrappers
  import Numbers

  const FLAT_VALUE: real := 0.5
  const DEFAULT_VOLUME: nat := 50

  datatype EqPreset = EqPreset(name: string, bands: seq<real>)

  /** Ten bands, each a slider value in [0, 1]. */
  predicate ValidBands(bands: seq<real>) {
    |bands| == 10 && forall i :: 0 <= i < |bands| ==> 0.0 <= bands[i] <= 1.0
  }

  function FlatBands(): (b: seq<real>)
    ensures ValidBands(b)
    ensures forall i :: 0 <= i < |b| ==> b[i] == FLAT_VALUE
  {
    seq(10, _ => FLAT_VALUE)
  }

  /** `AppConfig::get_default_presets`: twenty built-in presets of ten
      bands each, the first "Flat" at 0.5 on every band. */
  function DefaultPresets(): (r: seq<EqPreset>)
    ensures |r| == 20
    ensures r[0] == EqPreset("Flat", FlatBands())
    ensures forall i :: 0 <= i < |r| ==> |r[i].bands| == 10
  {
    [
      EqPreset("Flat", FlatBands()),
      EqPreset("Acoustic", [0.583, 0.542, 0.50, 0.542, 0.542, 0.50, 0.50, 0.542, 0.583, 0.542]),
      EqPreset("Bass Booster", [0.667, 0.708, 0.667, 0.583, 0.50, 0.50, 0.50, 0.50, 0.50, 0.50]),
      EqPreset("Bass Reducer", [0.333, 0.292, 0.333, 0.417, 0.50, 0.50, 0.50, 0.50, 0.50, 0.50]),
      EqPreset("Classical", [0.50, 0.50, 0.50, 0.50, 0.50, 0.458, 0.458, 0.458, 0.542, 0.583]),
      EqPreset("Dance", [0.708, 0.667, 0.583, 0.50, 0.417, 0.417, 0.50, 0.583, 0.625, 0.625]),
      EqPreset("Deep", [0.708, 0.667, 0.583, 0.50, 0.50, 0.50, 0.458, 0.417, 0.375, 0.333]),
      EqPreset("Electronic", [0.708, 0.667, 0.50, 0.458, 0.458, 0.50, 0.50, 0.583, 0.667, 0.708]),
      EqPreset("Hip-Hop", [0.708, 0.667, 0.583, 0.50, 0.50, 0.542, 0.542, 0.50, 0.542, 0.583]),
      EqPreset("Jazz", [0.583, 0.542, 0.50, 0.542, 0.583, 0.583, 0.50, 0.542, 0.583, 0.542]),
      EqPreset("Late Night", [0.458, 0.50, 0.542, 0.583, 0.583, 0.583, 0.542, 0.50, 0.458, 0.458]),
      EqPreset("Latin", [0.583, 0.542, 0.542, 0.542, 0.50, 0.50, 0.50, 0.542, 0.625, 0.625]),
      EqPreset("Loudness", [0.667, 0.583, 0.50, 0.50, 0.50, 0.50, 0.50, 0.50, 0.583, 0.667]),
      EqPreset("Lounge", [0.417, 0.50, 0.542, 0.583, 0.583, 0.542, 0.50, 0.458, 0.50, 0.50]),
      EqPreset("Piano", [0.542, 0.50, 0.50, 0.542, 0.583, 0.583, 0.542, 0.542, 0.583, 0.542]),
      EqPreset("Pop", [0.417, 0.50, 0.542, 0.625, 0.667, 0.625, 0.542, 0.50, 0.542, 0.542]),
      EqPreset("R&B", [0.625, 0.583, 0.542, 0.50, 0.542, 0.583, 0.583, 0.542, 0.542, 0.583]),
      EqPreset("Rock", [0.625, 0.583, 0.50, 0.458, 0.50, 0.583, 0.625, 0.625, 0.625, 0.583]),
      EqPreset("Small Speakers", [0.708, 0.667, 0.625, 0.542, 0.50, 0.50, 0.542, 0.625, 0.667, 0.708]),
      EqPreset("Spoken Word", [0.375, 0.458, 0.542, 0.667, 0.708, 0.667, 0.583, 0.50, 0.417, 0.375])
    ]
  }

  /** A name used by one of the built-in presets. */
  predicate IsDefaultName(name: string) {
    exists i :: 0 <= i < |DefaultPresets()| && DefaultPresets()[i].name == name
  }

  /** Every built-in band value is a valid slider position. */
  lemma DefaultBandsValid()
    ensures forall i :: 0 <= i < |DefaultPresets()| ==> ValidBands(DefaultPresets()[i].bands)
  {
  }

  /** A short fingerprint of a name: its length, first character and sixth
      character. */
  function Fingerprint(name: string): int {
    |name| * 0x1_0000_0000 + (if |name| > 0 then name[0] as int else 0) * 0x1_0000
      + (if |name| > 5 then name[5] as int else 0)
  }

  /** The fingerprints of the twenty built-in names, in preset order. */
  const DEFAULT_FINGERPRINTS: seq<int> := [17184456704, 34363998324, 51543932994, 51543933010, 38659096681, 21479292928, 17184325632, 42954195058, 30069489775, 17184718848, 42954653774, 21479817216, 34364719205, 25774784613, 21480079360, 12890144768, 12890275840, 17185243136, 60134981664, 47250079854]

  lemma DefaultFingerprints()
    ensures |DEFAULT_FINGERPRINTS| == |DefaultPresets()|
    ensures forall i :: 0 <= i < |DefaultPresets()| ==> Fingerprint(DefaultPresets()[i].name) == DEFAULT_FINGERPRINTS[i]
  {
    var d := DefaultPresets();
    forall i | 0 <= i < |d| ensures Fingerprint(d[i].name) == DEFAULT_FINGERPRINTS[i] {
    }
  }

  lemma FingerprintsDistinct()
    ensures forall i, j :: 0 <= i < j < |DEFAULT_FINGERPRINTS| ==> DEFAULT_FINGERPRINTS[i] != DEFAULT_FINGERPRINTS[j]
  {
  }

  /** The built-in preset names are pairwise distinct. */
  lemma DefaultNamesDistinct()
    ensures forall i, j :: 0 <= i < j < |DefaultPresets()| ==> DefaultPresets()[i].name != DefaultPresets()[j].name
  {
    DefaultFingerprints();
    FingerprintsDistinct();
  }

  /** "Custom" is not a built-in preset, so it can be deleted. */
  lemma CustomIsNotDefault()
    ensures IsDefaultName("Flat") && !IsDefaultName("Custom")
  {
    var d := DefaultPresets();
    assert d[0].name == "Flat";
    forall i | 0 <= i < |d| ensures d[i].name != "Custom" {
      assert Fingerprint(d[i].name) != Fingerprint("Custom");
    }
  }

  /** The session state saved in `state.toml` (`PersistentState`). */
  datatype PersistentState = PersistentState(
    lastPresetName: string,
    eqEnabled: bool,
    eqBands: seq<real>,
    preampDb: real,
    balance: real,
    crossfade: nat,
    replayGainMode: nat,
    volume: nat,
    presets: seq<EqPreset>)

  /** Every field fits the Rust type it is stored in. */
  predicate WellTyped(s: PersistentState) {
    && |s.eqBands| == 10
    && s.crossfade <= Numbers.U32_MAX
    && s.replayGainMode <= Numbers.U8_MAX
    && s.volume <= Numbers.U8_MAX
    && forall i :: 0 <= i < |s.presets| ==> |s.presets[i].bands| == 10
  }

  /** `PersistentState::default`. */
  function DefaultState(): (s: PersistentState)
    ensures WellTyped(s)
    ensures s.lastPresetName == "Flat" && !s.eqEnabled && s.eqBands == FlatBands()
    ensures s.volume == DEFAULT_VOLUME && s.presets == []
    ensures s.preampDb == 0.0 && s.balance == 0.0 && s.crossfade == 0 && s.replayGainMode == 0
  {
    PersistentState("Flat", false, FlatBands(), 0.0, 0.0, 0, 0, DEFAULT_VOLUME, [])
  }

  /** A parsed state document: each key is present with a value of the right
      TOML type, or absent. */
  datatype Document = Document(
    lastPresetName: Option<string>,
    eqEnabled: Option<bool>,
    eqBands: Option<seq<real>>,
    preampDb: Option<real>,
    balance: Option<real>,
    crossfade: Option<nat>,
    replayGainMode: Option<nat>,
    volume: Option<nat>,
    presets: Option<seq<EqPreset>>)

  /** Deserialisation with the serde defaults of each field: an absent
      `eq_bands` is ten 0.5 values and an absent `volume` is 50; every other
      absent field takes its type's default (empty name, false, zero, no
      presets). A value that does not fit its Rust type fails the parse. */
  function Deserialize(d: Document): (r: Option<PersistentState>)
    ensures r.Some? <==> Fits(d)
    ensures r.Some? ==> WellTyped(r.value)
    ensures r.Some? ==>
      var v := r.value;
      && v.lastPresetName == (if d.lastPresetName.Some? then d.lastPresetName.value else "")
      && v.eqEnabled == (d.eqEnabled.Some? && d.eqEnabled.value)
      && v.eqBands == (if d.eqBands.Some? then d.eqBands.value else FlatBands())
      && v.preampDb == (if d.preampDb.Some? then d.preampDb.value else 0.0)
      && v.balance == (if d.balance.Some? then d.balance.value else 0.0)
      && v.crossfade == (if d.crossfade.Some? then d.crossfade.value else 0)
      && v.replayGainMode == (if d.replayGainMode.Some? then d.replayGainMode.value else 0)
      && v.volume == (if d.volume.Some? then d.volume.value else DEFAULT_VOLUME)
      && v.presets == (if d.presets.Some? then d.presets.value else [])
  {
    var s := PersistentState(
      d.lastPresetName.GetOr(""),
      d.eqEnabled.GetOr(false),
      d.eqBands.GetOr(FlatBands()),
      d.preampDb.GetOr(0.0),
      d.balance.GetOr(0.0),
      d.crossfade.GetOr(0),
      d.replayGainMode.GetOr(0),
      d.volume.GetOr(DEFAULT_VOLUME),
      d.presets.GetOr([]));
    if WellTyped(s) then Some(s) else None
  }

  /** Every present value fits its Rust type: ten bands, a u32 crossfade,
      a u8 replay-gain mode and volume, ten bands in every preset. */
  predicate Fits(d: Document) {
    && (d.eqBands.Some? ==> |d.eqBands.value| == 10)
    && (d.crossfade.Some? ==> d.crossfade.value <= Numbers.U32_MAX)
    && (d.replayGainMode.Some? ==> d.replayGainMode.value <= Numbers.U8_MAX)
    && (d.volume.Some? ==> d.volume.value <= Numbers.U8_MAX)
    && (d.presets.Some? ==> forall i :: 0 <= i < |d.presets.value| ==> |d.presets.value[i].bands| == 10)
  }

  /** The document `PersistentState::save` writes: every key present. It
      fits the file's types exactly when the state is well typed, and then
      reads back as the same state. */
  function Serialize(s: PersistentState): (d: Document)
    ensures Fits(d) <==> WellTyped(s)
    ensures WellTyped(s) ==> Deserialize(d) == Some(s)
  {
    Document(Some(s.lastPresetName), Some(s.eqEnabled), Some(s.eqBands), Some(s.preampDb),
      Some(s.balance), Some(s.crossfade), Some(s.replayGainMode), Some(s.volume), Some(s.presets))
  }

  /** A document with no keys at all is not `DefaultState`: serde's field
      default for `last_preset_name` is the empty string, not "Flat". */
  lemma EmptyDocument()
    ensures var e := Deserialize(Document(None, None, None, None, None, None, None, None, None));
      e.Some? && e.value == DefaultState().(lastPresetName := "")
  {
  }

  /** What reading one of the two files produced. */
  datatype FileContent = Missing | Unreadable | Parsed(doc: Option<Document>)

  /** The state keys of the `config.toml` that `load` writes when there is
      none: the default user configuration holds key bindings and the music
      directory, and no state key. */
  const WRITTEN_CONFIG: Document := Document(None, None, None, None, None, None, None, None, None)

  /** `AppConfig::load`, state half: `state.toml` when it exists; otherwise the
      legacy keys of `config.toml`; any read or parse failure gives the
      default state. A missing `config.toml` is written first
      (`configWritten` says whether that write succeeded), so on a first
      run the fallback reads the freshly written file. */
  function LoadState(stateFile: FileContent, configFile: FileContent, configWritten: bool): (s: PersistentState)
    ensures WellTyped(s)
    ensures stateFile.Parsed? ==> s == FromDocument(stateFile.doc)
    ensures stateFile.Unreadable? ==> s == DefaultState()
    ensures stateFile.Missing? && configFile.Parsed? ==> s == FromDocument(configFile.doc)
    ensures stateFile.Missing? && configFile.Unreadable? ==> s == DefaultState()
    ensures stateFile.Missing? && configFile.Missing? ==>
      s == (if configWritten then FromDocument(Some(WRITTEN_CONFIG)) else DefaultState())
  {
    match stateFile
    case Parsed(doc) => FromDocument(doc)
    case Unreadable => DefaultState()
    case Missing =>
      match configFile
      case Parsed(doc) => FromDocument(doc)
      case Unreadable => DefaultState()
      case Missing => if configWritten then FromDocument(Some(WRITTEN_CONFIG)) else DefaultState()
  }

  /** On a first run, with neither file present, the state is the default
      one except for an empty preset name: the legacy fallback reads the
      just-written `config.toml`, whose missing `last_preset_name` takes
      serde's empty default. Only a failed write gives "Flat". */
  lemma FirstRun()
    ensures LoadState(Missing, Missing, true) == DefaultState().(lastPresetName := "")
    ensures LoadState(Missing, Missing, false) == DefaultState()
    ensures LoadState(Missing, Missing, true).lastPresetName != LoadState(Missing, Missing, false).lastPresetName
  {
    EmptyDocument();
  }

  /** A document read from a file: its state when the content parses and
      fits, the default state otherwise. */
  function FromDocument(doc: Option<Document>): (s: PersistentState)
    ensures WellTyped(s)
    ensures doc.Some? && Fits(doc.value) ==> Deserialize(doc.value) == Some(s)
    ensures doc.None? || !Fits(doc.value) ==> s == DefaultState()
  {
    if doc.None? then DefaultState()
    else
      match Deserialize(doc.value)
      case Some(st) => st
      case None => DefaultState()
  }

  /** Saving a well-typed state and loading it back reproduces it exactly. */
  lemma SaveLoadRoundTrip(s: PersistentState, configFile: FileContent, configWritten: bool)
    requires WellTyped(s)
    ensures LoadState(Parsed(Some(Serialize(s))), configFile, configWritten) == s
  {
  }
}
