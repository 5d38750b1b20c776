# Vyom core, modelled in Dafny

Vyom is a terminal music player. It drives MPD, or on macOS Spotify and
Music, and it can run its own audio path with a ten-band equaliser. This
project models the deterministic logic around that path and proves
properties of the model. The modelled parts are:

- **Equaliser and preset state** (`AppState`, `Dsp`, `Config`):
  - preset cycling, "Custom" marking, saving and deleting presets;
  - resetting and toggling the equaliser;
  - the preamp, balance and crossfade controls;
  - the dB/slider conversions and the `EqGains` setters with their clamps;
  - the balance law;
  - the 20 built-in presets;
  - persistent-state defaults, loading and saving;
  - output-device cycling and refresh;
  - the interpolated playback position;
  - the tag editor's field cursor.
- **Key handling** (`Keys`, `EqInput`, `PlayerInput`, `LibraryInput`,
  `LyricsInput`):
  - binding matching and binding display;
  - the EQ view (band cursor, gain steps, replay-gain cycle, level resets);
  - the player keys (volume steps, repeat cycle and MPD flags, seek
    accumulation, clamping and stale-seek suppression);
  - the library view (tab cycle, navigation bounds, queue reordering,
    rename and tag-edit prompts, delete, entering and leaving folders,
    leaving search);
  - the lyrics view (the current line, j/k selection, seek to line).
- **Parsers and formats**:
  - LRC timestamps and lyric files, plus title and artist cleaning and the
    lrclib response (`Lyrics`);
  - MPD's `audio: rate:bits:channels` status line (`MpdStatus`);
  - the Spotify AppleScript reply (`Spotify`);
  - the 44-byte WAV header of the HTTP stream (`HttpSource`);
  - 16/24/32-bit little-endian PCM (`HttpSource`, `FifoSource`, `Bytes`).
- **Format changes** (`FormatSwitch`, `HttpSource`, `FifoSource`): what the
  HTTP and FIFO audio loops rebuild when the stream format changes. The
  findings below come from here.
- **Lists and strings**:
  - the library panel's scroll window (`ScrollWindow`);
  - `truncate` (`UiUtils`);
  - the directory listing with its folders-first sort (`LibraryHelpers`).

Rust's `f32`/`f64` arithmetic is modelled over `real`. Unsigned integer
parsing is `Numbers.ParseUint`: an optional `+`, then one or more ASCII
digits, with a bound. Strings are `seq<char>`, and `trim` strips Unicode
White_Space, the set Rust's `char::is_whitespace` recognises. Replies from MPD, AppleScript and the system, the clock, and the
success of a stream rebuild are all parameters.

Two snapshots of the source differ. `src/app/state.rs` is older than the
key handlers in `src/app/inputs/`, which use a key configuration, a seek
counter, a three-valued repeat mode and lyrics that carry their source. The
`App` record here holds the fields both use. Where they overlap, the handlers'
behaviour is modelled.

## Model

| member | source | states |
|---|---|---|
| UiUtils.Truncate | src/ui/utils.rs:2-13 | A string of at most `max` characters comes back unchanged. A longer one becomes a prefix of the input followed by "…", with exactly `max` characters in all (one when `max` is 0). |
| UiUtils.TruncateIdempotent | src/ui/utils.rs:2-13 | Truncating an already truncated string changes nothing. |
| UiUtils.TruncateFits | src/ui/utils.rs:4-10 | For `max` ≥ 1 the result never has more than `max` characters. It is either the input itself or exactly `max` long. |
| ScrollWindow.Sub | src/ui/components/library.rs:188-191 | Saturating subtraction: the exact difference when it is non-negative, 0 otherwise. |
| ScrollWindow.StartIndex | src/ui/components/library.rs:188-191 | The first visible row never passes the selection. The window contains the selection when it is in range. The window is full whenever there are at least `h` items. The start never exceeds len ⊖ h. |
| ScrollWindow.VisibleRows | src/ui/components/library.rs:193-199 | At most `h` rows are rendered, exactly min(h, len − start) of them. Row i is item start + i. |
| ScrollWindow.SelectionIsRendered | src/ui/components/library.rs:186-199 | For a non-empty window and an in-range selection, the selected item is one of the rendered rows. |
| ScrollWindow.ContentHeight | src/ui/components/library.rs:154 | The list gets the panel height minus the 8 rows of title and footer, and 0 rows in a panel shorter than that. |
| ScrollWindow.ScrollClampingScenario | src/ui/components/library.rs:642-692 | The source's clamping scenario holds: a 30-line panel shows 22 rows, and selecting item 49 of 50 starts the window at 28 and fills it. |
| Keys.Matches | src/app/keys.rs:152-179 | A named key (Space, Enter, Backspace, Esc, Tab, BackTab, the arrows) matches exactly its key code. A lowercase single character matches only that character. An uppercase one matches itself, or its lowercase form with Shift held. Any other multi-character string matches nothing. |
| Keys.LowercaseBindingIgnoresShift | src/app/keys.rs:171-172 | A lowercase binding fires on its character with or without Shift, and never on the uppercase character. |
| Keys.UppercaseBindingWithShift | src/app/keys.rs:164-170 | An uppercase binding fires on the uppercase character and on Shift plus the lowercase one, but not on the lowercase one without Shift. |
| Keys.Display | src/app/keys.rs:182-193 | Arrows become glyphs, BackTab becomes "S-Tab" and Backspace becomes "Bksp". Other bindings are shown as written, and no key name survives the mapping. |
| Keys.DisplayIdempotent | src/app/keys.rs:182-193 | Displaying a displayed binding changes nothing. |
| Keys.DefaultKeys | src/app/keys.rs:80-148 | With the default bindings, Space plays or pauses and Shift+s saves a preset while a plain s does not. Tab moves to the next preset. The arrow alternative `l` is not a default binding for moving right. |
| Dsp.ValueToDb | src/audio/dsp.rs:26-28 | The slider value maps to gain so that 0 → −12 dB, 0.5 → 0 dB and 1 → +12 dB. The slider range [0, 1] corresponds exactly to [−12, 12] dB. |
| Dsp.DbToValue | src/audio/dsp.rs:32-34 | 0 dB maps to the slider's middle. The dB range [−12, 12] corresponds exactly to slider values in [0, 1]. |
| Dsp.DbToValueInvertsValueToDb | src/audio/dsp.rs:26-34 | Converting a slider value to dB and back gives the value. |
| Dsp.ValueToDbInvertsDbToValue | src/audio/dsp.rs:26-34 | Converting a gain to a slider value and back gives the gain. |
| Dsp.ValueToDbStrictlyMonotone | src/audio/dsp.rs:26-28 | A higher slider value always means a higher gain, and conversely. |
| Dsp.NewGains | src/audio/dsp.rs:56-63 | New gains have ten bands at 0 dB, are enabled, and have no preamp and centred balance. |
| Dsp.SetGain | src/audio/dsp.rs:66-72 | A band index of 10 or more changes nothing. Otherwise that band gets the gain clamped to [−12, 12] dB and every other band and setting is kept. |
| Dsp.SetGainFromValue | src/audio/dsp.rs:75-77 | The band gets the slider value's gain; a value above 1 saturates to +12 dB and one below 0 to −12 dB. Other bands are kept. |
| Dsp.SetAllFromValues | src/audio/dsp.rs:85-91 | Each band's gain converts back to the slider value given for it. The other settings are kept. |
| Dsp.SetEnabled | src/audio/dsp.rs:94-98 | Only the enabled flag changes. |
| Dsp.Reset | src/audio/dsp.rs:106-110 | All ten gains return to 0 dB; enable, preamp and balance are kept. |
| Dsp.SetPreampDb | src/audio/dsp.rs:118-122 | The preamp is clamped to [−12, 12] dB and is exact inside that range. Nothing else changes. |
| Dsp.SetBalance | src/audio/dsp.rs:130-134 | The balance is clamped to [−1, 1] and is exact inside that range. Nothing else changes. |
| Dsp.SettersPreserveRange | src/audio/dsp.rs:66-134 | No setter can move a gain, the preamp or the balance out of its range. |
| Dsp.BalanceGains | src/audio/dsp.rs:290-293 | Centred balance leaves both channels at 1. The side panned toward keeps gain 1, full right silences the left, and full left silences the right. Both gains stay in [0, 1]. |
| Dsp.BalanceLawMonotoneAndSymmetric | src/audio/dsp.rs:290-293 | Moving the balance right never raises the left gain or lowers the right. Mirroring the balance swaps the two gains. |
| Config.FlatBands | src/app/config.rs:60-62 | The default bands are ten values of 0.5. |
| Config.DefaultPresets | src/app/config.rs:214-332 | There are exactly 20 built-in presets of ten bands each, and the first is "Flat" with all bands at 0.5. |
| Config.DefaultBandsValid | src/app/config.rs:214-332 | Every built-in preset has ten band values, all in [0, 1]. |
| Config.DefaultNamesDistinct | src/app/config.rs:214-332 | The built-in preset names are pairwise distinct. |
| Config.CustomIsNotDefault | src/app/config.rs:214-332 | "Flat" is a built-in name and "Custom" is not. |
| Config.DefaultState | src/app/config.rs:77-91 | The default state is "Flat" with the EQ off, flat bands, volume 50, no user presets, and zero preamp, balance, crossfade and replay-gain mode. |
| Config.Deserialize | src/app/config.rs:32-66 | A document parses exactly when every present value fits its Rust type. Each present field is taken as given. Each absent one takes its serde default: an empty name, false, flat bands, 0 dB, centred balance, no crossfade, replay gain off, volume 50 and no presets. |
| Config.Serialize | src/app/config.rs:204-211 | The document `save` writes for a state fits the file's types exactly when the state is well typed, and a well-typed state reads back from it unchanged. |
| Config.EmptyDocument | src/app/config.rs:32-66 | An empty document reads as the default state except for an empty preset name, which is serde's field default, where the Default impl has "Flat". |
| Config.LoadState | src/app/config.rs:138-196 | An existing state file decides: its parsed content, or the default state when it cannot be read or parsed. Without one, the legacy fields of `config.toml` decide the same way. When that file is missing too, it has just been written with no state keys and is read back, unless the write failed. |
| Config.FirstRun | src/app/config.rs:138-196 | On a first run, with neither file present, the state is the default with an empty preset name. Only a failed config write leaves "Flat". |
| Config.FromDocument | src/app/config.rs:158-164 | Content that parses and fits gives exactly its deserialised state. Content that does not parse or does not fit gives the default state. |
| Config.SaveLoadRoundTrip | src/app/config.rs:138-211 | Loading a saved state gives that state back, whatever the config file holds. |
| Lyrics.ParseTimestamp | src/app/lyrics.rs:421-442 | A parsed timestamp is a u64 value, wrapped modulo 2^64. |
| Lyrics.WrapU64IsMod | src/app/lyrics.rs:421-442 | The stamp arithmetic wraps exactly like u64 addition and multiplication: the result is the exact value modulo 2^64. |
| Lyrics.StampValue | src/app/lyrics.rs:441 | The stamp is below 2^64, and equals minutes·60000 plus the milliseconds whenever that fits. |
| Lyrics.DigitStampParses | src/app/lyrics.rs:421-442 | Three digit groups "m:ss.f" parse to m·60000 + ss·1000 + the fraction's milliseconds, wrapped to u64. |
| Lyrics.FractionDigits | src/app/lyrics.rs:430-436 | A two-digit fraction counts hundredths (×10 ms); a fraction of any other length is taken as raw milliseconds. |
| Lyrics.ParseTimestampNeedsOneColon | src/app/lyrics.rs:422-425 | Without exactly one ':' there is no timestamp. |
| Lyrics.SecondsFieldSplit | src/app/lyrics.rs:428-439 | A seconds field "s.f" is s·1000 plus the fraction's milliseconds. |
| Lyrics.ParseFraction | src/app/lyrics.rs:430-436 | A fraction parses exactly when it is a u64. A two-character fraction counts centiseconds, so it is a multiple of 10 ms below one second. Any other length counts milliseconds. |
| Lyrics.ParseSecondsField | src/app/lyrics.rs:428-439 | Without a '.', the field parses exactly when it is a u64, and gives that many whole seconds in milliseconds. With a '.', the part before the first '.' must parse. |
| Lyrics.TimestampSplit | src/app/lyrics.rs:421-441 | "m:rest" is m·60000 plus the seconds field's milliseconds. |
| Lyrics.TimestampOfPieces | src/app/lyrics.rs:421-441 | "m:s.f" is m·60000 + s·1000 + the fraction's milliseconds. |
| Lyrics.ParseTimestampParts | src/app/lyrics.rs:421-441 | The same arithmetic for a timestamp assembled from its three digit groups. |
| Lyrics.ParseLrcLine | src/app/lyrics.rs:312-324 | A line yields a lyric only if it starts with '[' and contains ']'. The text is trimmed and the time fits in a u64. |
| Lyrics.StampedLine | src/app/lyrics.rs:316-322 | The bracket's contents give a lyric exactly when they parse as a timestamp. The lyric has that time and the trimmed rest of the line. |
| Lyrics.ParseLrcContent | src/app/lyrics.rs:310-327 | There are never more lyrics than input lines. |
| Lyrics.ParseLrcContentFaithful | src/app/lyrics.rs:310-327 | Every lyric comes from an input line that parses to it. Every line that parses contributes its lyric. |
| Lyrics.ParseLrcContentInOrder | src/app/lyrics.rs:310-327 | Lyrics keep the order of their lines: for lyrics k1 < k2 there are lines i1 < i2 that parse to them. |
| Lyrics.BracketedLine | src/app/lyrics.rs:312-324 | "[stamp]text" is read through its stamp and text. |
| Lyrics.StampTextParses | src/app/lyrics.rs:421-442 | A time in whole hundredths written as "m:ss.cc" parses back to itself. |
| Lyrics.ParseFormattedLine | src/app/lyrics.rs:312-324 | A lyric written as "[m:ss.cc]text" parses back to itself. |
| Lyrics.LrcRoundTrip | src/app/lyrics.rs:310-327 | A file of such lines, one per lyric, parses back to the same lyrics in the same order. |
| Lyrics.StripBrackets | src/app/lyrics.rs:104-118 | Bracket removal drops every parenthesised or bracketed span and never lengthens the title. No bracket character survives. |
| Lyrics.StripBracketsKeepsPlain | src/app/lyrics.rs:104-118 | A title with no brackets is left as it is. |
| Lyrics.CutTitle | src/app/lyrics.rs:90-92 | The kept text is a prefix of the title that contains none of "feat.", "(feat" or "with". It is the whole title when the title contains none of them. |
| Lyrics.RemoveJunk | src/app/lyrics.rs:95-102 | Deleting the seven phrases never lengthens the title. The title comes back unchanged exactly when it contains none of them. |
| Lyrics.CleanTitle | src/app/lyrics.rs:86-119 | The cleaned title is trimmed and has no '(', ')', '[' or ']'. |
| Lyrics.CleanTitleFixesCleanInput | src/app/lyrics.rs:86-119 | A trimmed lowercase title with no brackets and none of the removed phrases is returned unchanged. |
| Lyrics.PrimaryArtist | src/app/lyrics.rs:121-135 | The primary artist is the prefix of the input before the first separator of any kind (",", "&", " feat.", " ft.", " featuring"). It ends where one starts, or at the end, and none starts earlier. |
| Lyrics.CutStep | src/app/lyrics.rs:130-134 | One cut at the first match of a separator keeps a prefix that stops at a separator's first character, and no match starts before it in the whole text. |
| Lyrics.CleanArtist | src/app/lyrics.rs:121-137 | The cleaned artist is the lowercased input up to its first separator, trimmed. It holds no ',' or '&' and no featuring marker. |
| Lyrics.CleanArtistIdempotent | src/app/lyrics.rs:121-137 | Cleaning a cleaned artist changes nothing. |
| Lyrics.Parse | src/app/lyrics.rs:385-401 | The instrumental flag always wins. Synced lyrics are tried first and plain lyrics second, a result is never an empty list, and no lyrics at all gives "none". |
| Lyrics.ParseFallsBackToPlain | src/app/lyrics.rs:385-401 | Without synced lyrics the plain text is used. With the instrumental flag set the result is instrumental whatever the texts are. |
| MpdStatus.AudioLine | src/audio/sources/common.rs:49-58 | A line counts when it starts with "audio: " and has at least three ':' fields. Such a line gives the three numbers when each parses into its type (u32, u16, u16), and a failure otherwise. |
| MpdStatus.ScanLines | src/audio/sources/common.rs:48-60 | The result is decided by the first line that counts, and lines before it are skipped. With no such line there is no result. |
| MpdStatus.ParseMpdStatus | src/audio/sources/common.rs:46-61 | The response's first qualifying audio line gives the format. Any format returned fits the field types. |
| MpdStatus.NoAudioLine | src/audio/sources/common.rs:48-60 | A response with no "audio: " line gives no format. |
| MpdStatus.ShortLineSkipped | src/audio/sources/common.rs:52-57 | An audio line with fewer than three fields is skipped and the search goes on. |
| MpdStatus.BadFieldStops | src/audio/sources/common.rs:53-55 | A qualifying line with a field that does not parse ends the search with no format, even if a later line is good. |
| MpdStatus.AudioLineRoundTrip | src/audio/sources/common.rs:49-57 | "audio: r:b:c" reads back as (r, b, c). |
| MpdStatus.StatusRoundTrip | src/audio/sources/common.rs:46-61 | A response that begins with "audio: r:b:c" gives (r, b, c), whatever follows. |
| HttpSource.SaneChannels | src/audio/sources/http.rs:142 | A channel count of 1 to 8 is kept; any other count becomes 2. |
| HttpSource.SaneRate | src/audio/sources/http.rs:143 | A rate in [8000, 192000] is kept; any other rate becomes 44100. |
| HttpSource.SniffHeader | src/audio/sources/http.rs:130-144 | A header without the RIFF, WAVE and "fmt " tags keeps the previous format. Otherwise the channels come from the little-endian u16 at byte 22 and the rate from the u32 at byte 24, both sanitised. |
| HttpSource.SniffRoundTrip | src/audio/sources/http.rs:135-143 | A WAV header written for a sane format is read back as that format, whatever came before. |
| HttpSource.Initial | src/audio/sources/http.rs:71-110 | The loop starts from the configured input format, with the stream and equaliser built for it. |
| HttpSource.ConnectAsWritten | src/audio/sources/http.rs:121-167 | As written: the announced format is recorded. An unchanged format plays on. A changed one rebuilds the equaliser, and the connection plays only if the stream rebuild succeeds. |
| HttpSource.ConnectAsWrittenPlaysStale | src/audio/sources/http.rs:146-167 | As written, a failed rebuild followed by a reconnect plays 48 kHz data through the 44.1 kHz stream. |
| HttpSource.Connect | src/audio/sources/http.rs:146-167 | Corrected: a connection that plays always has a stream built for the format it carries, with the equaliser at that rate. A successful build always plays. |
| HttpSource.Sample16 | src/audio/sources/http.rs:187-189 | A 16-bit sample scales into [−1, 1). |
| HttpSource.Decode16 | src/audio/sources/http.rs:181-191 | n bytes give ⌊n/2⌋ samples; sample i comes from bytes 2i and 2i+1. |
| HttpSource.DecodeEncoded | src/audio/sources/http.rs:181-191 | Decoding the little-endian bytes of 16-bit samples gives each sample divided by 32768. |
| FifoSource.FrameSize | src/audio/sources/fifo.rs:73-74 | A frame is (bits/8)·channels bytes. It is empty exactly when the depth is under 8 bits or there are no channels. |
| FifoSource.FormatChangedIsDifferent | src/audio/sources/fifo.rs:88-90 | The poll sees a change exactly when rate, bits or channels differ. |
| FifoSource.PollAsWritten | src/audio/sources/fifo.rs:86-139 | As written: a polled format replaces the tracked one. The frame size, read buffer and equaliser rate are recomputed from it, and an unchanged or missing poll changes nothing. |
| FifoSource.PollAsWrittenStaysStale | src/audio/sources/fifo.rs:97-135 | As written, after a failed rebuild to 48 kHz the next poll does nothing, and the 44.1 kHz stream stays. |
| FifoSource.Poll | src/audio/sources/fifo.rs:86-139 | Corrected: the derived sizes always match the tracked format. A poll with a successful rebuild leaves the stream matching the data. |
| FifoSource.Decode24IsSigned | src/audio/sources/fifo.rs:189-195 | The shift trick `(b2<<24 \| b1<<16 \| b0<<8) >> 8` gives the signed 24-bit little-endian value, in [−2^23, 2^23). |
| FifoSource.SampleAt | src/audio/sources/fifo.rs:177-214 | Each sample lies in [−1, 1) over exact reals (see "## Left out" for 32-bit samples in `f32`). Unsupported depths give 0.0. |
| FifoSource.DecodeFrames | src/audio/sources/fifo.rs:159-217 | n bytes give ⌊n / frame size⌋ frames of one sample per channel. With a zero frame size the read buffer is empty, so nothing is decoded. |
| FifoSource.FramesRange | src/audio/sources/fifo.rs:177-216 | Every decoded sample lies in [−1, 1) over exact reals, and all are 0.0 for an unsupported depth. |
| FifoSource.PushSamples | src/audio/sources/fifo.rs:235-241 | The ring never holds more than 2·65536 samples. The newest samples are kept, and nothing is dropped while it fits. |
| FormatSwitch.ApplyAsWritten | src/audio/sources/http.rs:147-167 | As written: a rebuild is attempted only when the observation differs from the recorded format, and the observation is recorded either way. |
| FormatSwitch.Apply | src/audio/sources/http.rs:147-167 | Corrected: a rebuild is attempted whenever the observation differs from the format the stream was built for. |
| FormatSwitch.ApplyResyncs | src/audio/sources/http.rs:147-167 | With the corrected decision the stream is out of step only after a failed rebuild. The next successful attempt brings it back in step. |
| FormatSwitch.AsWrittenStaysStale | src/audio/sources/http.rs:147-167 | As written, after a failed rebuild the same observation never triggers another, so the stream stays built for the old format. |
| AppState.NewTagEdit | src/app/state.rs:94-102 | A new tag editor starts on the title field with the given path and title. |
| AppState.ActiveValue | src/app/state.rs:104-110 | Field 0 edits the title, 1 the artist, and anything else the album. |
| AppState.NextField | src/app/state.rs:112-114 | The cursor moves to a field in 0..2, and nothing else changes. |
| AppState.PrevField | src/app/state.rs:116-122 | The cursor moves back to a field in 0..2, and nothing else changes. |
| AppState.FieldCycle | src/app/state.rs:112-122 | Next and previous field undo each other, and three steps forward return to the start. |
| AppState.Elapsed | src/app/state.rs:360 | The time since the last update is the clock difference, or 0 when the clock reads earlier, because `Instant::elapsed` saturates. |
| AppState.CurrentPositionMs | src/app/state.rs:356-369 | With no track the position is 0. A track that is not playing, or has no update time, reports its last position. A playing one reports the last position plus the time elapsed since the update, capped at the duration. |
| AppState.PositionMonotone | src/app/state.rs:356-369 | The reported position never goes backwards as the clock advances. |
| AppState.PositionKeepsPace | src/app/state.rs:356-369 | While a track plays, d more milliseconds on the clock add d to the position until the duration caps it. |
| AppState.SyncEqToDsp | src/app/state.rs:372-375 | Every band's DSP gain converts back to its slider value, and the enable flag is copied. Preamp and balance are kept. |
| AppState.SyncBandToDsp | src/app/state.rs:378-383 | Only the given band's DSP gain changes, to its slider value's gain. An out-of-range band changes nothing. |
| AppState.PresetIndex | src/app/state.rs:389 | Finds the first preset with the name, or reports that none has it. |
| AppState.ResetEq | src/app/state.rs:386-400 | All bands return to 0.5 and the DSP gains to 0 dB. The "Custom" preset, if any, is flattened and every other preset is kept. "Flat" is selected when present. |
| AppState.ToggleEq | src/app/state.rs:403-406 | The EQ's enable flag flips, and the DSP follows it. |
| AppState.ToggleEqTwice | src/app/state.rs:403-406 | Toggling twice restores the state. |
| AppState.ApplyPreset | src/app/state.rs:442-448 | The selected preset's bands and name become live. An index past the end changes nothing. |
| AppState.NextPreset | src/app/state.rs:451-454 | The index advances modulo the preset count, and that preset's bands and name are applied. |
| AppState.PrevPreset | src/app/state.rs:457-464 | From index 0 the last preset is chosen, otherwise the index before. That preset is applied. |
| AppState.NextPrevInverse | src/app/state.rs:451-464 | Next then previous, or previous then next, returns to the same preset. |
| AppState.PresetName | src/app/state.rs:467-473 | Gives the selected preset's name, or "Unknown" when the index is past the end. |
| AppState.MarkCustom | src/app/state.rs:477-492 | "Custom" is selected and holds the live bands. An existing "Custom" is updated in place; otherwise one is inserted at the front. |
| AppState.MarkCustomIdempotent | src/app/state.rs:477-492 | Marking custom twice is the same as once. |
| AppState.SavePreset | src/app/state.rs:495-500 | Exactly one preset, with the live bands and the given name, is appended and selected. |
| AppState.DeletePreset | src/app/state.rs:503-522 | Deleting a built-in preset, or with nothing selected, is an error with the source's message. Otherwise exactly the selected entry is removed and the selection is clamped into the list. |
| AppState.DeleteUndoesSave | src/app/state.rs:495-522 | Deleting a just-saved user preset succeeds and restores the preset list. |
| AppState.UserPresets | src/app/state.rs:524-559 | Only presets with non-built-in names are saved, and each comes from the list. |
| AppState.SaveState | src/app/state.rs:524-559 | The saved state carries the preset name, bands, enable flag, preamp, balance, crossfade and replay-gain mode, plus only the user presets. The volume is not written, so it reads back as 50. |
| AppState.LoadEq | src/app/state.rs:250-354 | The presets are the built-ins followed by the saved ones. The saved preset name is selected when found, else the first preset. The saved levels are restored, while the DSP's preamp and balance start at 0. |
| AppState.NewApp | src/app/state.rs:250-354 | A new app starts in the lyrics view on the queue tab with no lyrics, at app volume 100, with repeat off and shuffle off. The device cursor is on the first device. |
| AppState.SaveStateWellTyped | src/app/state.rs:524-559 | What is saved always fits the state file's types. |
| AppState.SaveThenLoadKeepsSelection | src/app/state.rs:524-559 | Saving and loading again keeps the selected preset's name, bands and levels. |
| AppState.UserPresetsOfLoaded | src/app/state.rs:261-262 | The user presets of a freshly loaded list are exactly the saved ones. |
| AppState.SaveThenLoadKeepsPresets | src/app/state.rs:524-559 | Saving and loading again keeps the whole preset list. |
| AppState.AdjustPreamp | src/app/state.rs:649-652 | The preamp moves by the step and is clamped to [−12, 12] dB, and the DSP follows it. |
| AppState.ResetPreamp | src/app/state.rs:655-658 | The preamp returns to 0 dB in both places. |
| AppState.AdjustBalance | src/app/state.rs:661-664 | The balance moves by the step and is clamped to [−1, 1], and the DSP follows it. |
| AppState.ResetBalance | src/app/state.rs:667-670 | The balance returns to centre in both places. |
| AppState.AdjustInverse | src/app/state.rs:649-664 | Inside the ranges, a step and its opposite cancel. |
| AppState.NextCrossfade | src/app/state.rs:673-680 | Crossfade steps 0 → 2 → 4 → 6, and anything else goes to 0. |
| AppState.CrossfadeCycle | src/app/state.rs:673-680 | Four steps return to the start, and an off-cycle value resets to 0. |
| AppState.ToggleCrossfade | src/app/state.rs:673-680 | The crossfade steps 0 → 2 → 4 → 6 → 0 seconds, any other value goes to 0, and no other equaliser setting changes. |
| AppState.DeviceIndex | src/app/state.rs:565 | Finds the first device with the name, or reports that none has it. |
| AppState.RefreshDevices | src/app/state.rs:599-642 | An empty enumeration changes nothing. Otherwise the list is replaced and the cursor follows the current output if it is still present, else stays where it was when in range. A valid cursor stays valid. |
| AppState.StepCursor | src/app/state.rs:563-596 | The cursor wraps forward from the last entry to 0 and backward from 0 to the last. |
| AppState.StepsForwardCycle | src/app/state.rs:563-576 | n forward steps return to the start, and every device is reachable. |
| AppState.StepCursorInverse | src/app/state.rs:563-596 | Forward then back, or back then forward, returns to the same device. |
| AppState.CycleDevice | src/app/state.rs:563-596 | The list is refreshed, then the cursor steps. The output becomes the new device when the switch succeeds, and the cursor stays valid. |
| AppState.RefreshFindsDevice | src/app/state.rs:599-642 | With distinct device names, refreshing finds the current output and points the cursor at it. |
| AppState.NextThenPrevDevice | src/app/state.rs:563-596 | Switching to the next device and then the previous returns to the original device, and likewise in the other order. |
| EqInput.BandLeft | src/app/inputs/eq.rs:34-37 | The band cursor moves left and stops at 0. |
| EqInput.BandRight | src/app/inputs/eq.rs:38-43 | The band cursor moves right and stops at 9. |
| EqInput.BandCursor | src/app/inputs/eq.rs:34-43 | The cursor stays in 0..9, and left and right undo each other away from the ends. |
| EqInput.StepValue | src/app/inputs/eq.rs:44-61 | A band steps by ±0.05 and saturates at 1 and at 0, so it stays in [0, 1]. |
| EqInput.StepGain | src/app/inputs/eq.rs:44-61 | Only the selected band changes. "Custom" is then selected and holds the new bands. |
| EqInput.ResetLevels | src/app/inputs/eq.rs:75-82 | Preamp and balance return to 0 and the DSP follows. The preset and bands are untouched. |
| EqInput.NextReplayGain | src/app/inputs/eq.rs:120-136 | The replay-gain mode advances modulo 4. |
| EqInput.ReplayGainCycle | src/app/inputs/eq.rs:120-136 | Four presses return to the starting mode. |
| EqInput.BandKey | src/app/inputs/eq.rs:34-61 | The band keys keep the EQ well formed and leave preamp and balance alone. |
| EqInput.LevelKey | src/app/inputs/eq.rs:62-136 | The level keys keep the EQ well formed and leave the band cursor alone. |
| EqInput.HandleEqKey | src/app/inputs/eq.rs:7-138 | Outside the EQ view nothing is handled or changed. Only the EQ state and the input prompt can change, and the save key opens the save-preset prompt. |
| EqInput.BandBindingsRun | src/app/inputs/eq.rs:24-76 | In the EQ view each band binding runs its operation when no earlier binding matches: delete, cursor left and right, gain up and down, toggle and reset. |
| EqInput.LevelBindingsRun | src/app/inputs/eq.rs:77-138 | Past the band keys, each level binding runs its operation when no earlier binding matches: reset levels, next and previous preset, preamp, balance, crossfade and replay gain. A key bound to nothing is passed on. |
| EqInput.DeleteKeepsRange | src/app/inputs/eq.rs:25-32 | Deleting a preset keeps every band value in [0, 1]. |
| PlayerInput.VolumeUp | src/app/inputs/player.rs:42-52 | The volume rises by 5 and stops at 100. |
| PlayerInput.VolumeDown | src/app/inputs/player.rs:55-65 | The volume falls by 5 and stops at 0. |
| PlayerInput.VolumeStepsInverse | src/app/inputs/player.rs:42-65 | Away from the limits, up and down undo each other. The volume never exceeds 100. |
| PlayerInput.NextRepeat | src/app/inputs/player.rs:226-230 | Repeat always changes mode. |
| PlayerInput.RepeatFlags | src/app/inputs/player.rs:246-250 | MPD's single flag is set only together with repeat. |
| PlayerInput.RepeatCycle | src/app/inputs/player.rs:223-273 | Off → Playlist → Single → Off. The MPD flags (false,false), (true,false) and (true,true) identify the mode. |
| PlayerInput.ClampTarget | src/app/inputs/player.rs:90-98 | The seek target is never negative. It never passes the track's duration, and in range it is exact. |
| PlayerInput.SeekPress | src/app/inputs/player.rs:68-126 | A press 500 ms or more after the last one starts a new sequence at ±5 s from the current position. A quicker press adds ±5 s to the accumulated step. A new seek request carries the next id. |
| PlayerInput.RapidSeeksAccumulate | src/app/inputs/player.rs:68-126 | Two quick presses give one target ±10 s from the starting position. Only the later request's id is the latest, so the earlier seek is discarded. |
| PlayerInput.PressManyAccumulates | src/app/inputs/player.rs:72-88 | Any run of quick presses keeps the starting position and accumulates ±5 s per press. |
| PlayerInput.HandlePlayerKey | src/app/inputs/player.rs:20-290 | An unhandled key changes nothing. The volume only falls or stays within 100. The EQ view issues no seek and the library view leaves the devices alone. Every seek request takes the next id. |
| PlayerInput.PlayerBindingsRun | src/app/inputs/player.rs:20-290 | The transport keys change nothing locally. Volume up and down step the volume and stamp the time. Outside the EQ view the seek keys run a seek press. Each applies when no earlier binding matches. |
| PlayerInput.LaterPlayerBindingsRun | src/app/inputs/player.rs:20-290 | Past those, shuffle flips or follows MPD's flag, repeat cycles when MPD accepts it, and the device keys cycle devices in the lyrics, visualiser and EQ views. A key bound to nothing is passed on. |
| LibraryInput.NextTab | src/app/inputs/library.rs:69-74 | The next tab is never Search and never the current tab (Queue → Directory → Playlists → Queue; Search → Playlists). |
| LibraryInput.PrevTab | src/app/inputs/library.rs:102-107 | The previous tab is never Search and never the current tab (Queue → Playlists → Directory → Queue; Search → Directory). |
| LibraryInput.TabCycle | src/app/inputs/library.rs:69-107 | Outside Search the two directions undo each other, and three steps return to the start. |
| LibraryInput.TabItems | src/app/inputs/library.rs:89-97 | Only a forward switch to the directory tab loads items, and only from a successful listing. |
| LibraryInput.TabPlaylists | src/app/inputs/library.rs:81-88 | Only switching to the playlists tab reloads the playlists, and only from a successful reply. |
| LibraryInput.SwitchTab | src/app/inputs/library.rs:68-122 | A tab switch selects the new tab and resets the selection, path and query. Forward loads the root listing on the directory tab and ends search entry. Backward leaves the items empty. |
| LibraryInput.NavUp | src/app/inputs/library.rs:441-444 | Up moves the selection back one, stopping at 0. |
| LibraryInput.NavDown | src/app/inputs/library.rs:445-455 | Down moves forward one while there is a next row. |
| LibraryInput.NavBounds | src/app/inputs/library.rs:441-455 | An in-range selection stays in range, and up and down undo each other away from the ends. |
| LibraryInput.MoveQueueEntry | src/app/inputs/library.rs:27-65 | Moving a queue entry moves the selection with it only when MPD accepts the shift. Nothing else changes, and the selection stays in range. |
| LibraryInput.MoveDownThenUp | src/app/inputs/library.rs:27-65 | Moving an entry down and back up restores the selection. |
| LibraryInput.RenamePrompt | src/app/inputs/library.rs:133-144 | The rename prompt opens exactly when a playlist is selected, pre-filled with its name. |
| LibraryInput.TagEditFor | src/app/inputs/library.rs:146-195 | Tag editing opens for the selected queue entry or directory song, with its path, title and artist and the album read from the file. |
| LibraryInput.DeleteItem | src/app/inputs/library.rs:197-240 | In controller mode or outside the playlists tab nothing visible changes. Deleting a playlist reloads the list and pulls the selection back when it falls off the end. |
| LibraryInput.DeleteKeepsSelection | src/app/inputs/library.rs:211-237 | After a delete the selection is still in range, provided the reloaded list is at most one shorter. |
| LibraryInput.DeleteCanLeaveSelectionPastEnd | src/app/inputs/library.rs:211-237 | When the reload is shorter by more, as when another client also deleted playlists, the single step back leaves the selection past the end. |
| LibraryInput.EnterFolder | src/app/inputs/library.rs:294-369 | Entering a folder that lists pushes its name onto the path, resets the selection and shows its items. Otherwise the library is untouched. |
| LibraryInput.BackDir | src/app/inputs/library.rs:416-438 | Back pops exactly one path element, resets the selection and shows the parent's listing. |
| LibraryInput.EnterThenBack | src/app/inputs/library.rs:294-438 | Entering a folder and going back restores the path. |
| LibraryInput.LeaveSearch | src/app/inputs/library.rs:372-413 | Leaving search returns to the remembered tab, or to Directory. It clears the query and selection, empties the items for Queue and loads playlist rows for Playlists. |
| LibraryInput.FirstKeys | src/app/inputs/library.rs:27-195 | The reorder, tab, save, rename and tag keys change only the library, the tag editor and the prompt, and keep the selection in range. |
| LibraryInput.LaterKeys | src/app/inputs/library.rs:197-456 | The delete, enter, back and navigation keys change only the library. They keep the selection in range when a reloaded playlist list is at most one shorter. |
| LibraryInput.NavKeys | src/app/inputs/library.rs:441-452 | The cursor keys move only the library selection and keep it on a row. |
| LibraryInput.HandleLibraryKey | src/app/inputs/library.rs:13-459 | Outside the library view nothing is handled. An unhandled key changes nothing. Only the library, tag editor and prompt can change. The selection stays in range when a reloaded playlist list is at most one shorter. |
| LibraryInput.FirstBindingsRun | src/app/inputs/library.rs:27-195 | In the library view the reorder, tab, save, rename and tag-edit bindings each run their operation when no earlier binding matches. |
| LibraryInput.LaterBindingsRun | src/app/inputs/library.rs:197-456 | Past those, delete, add, open, back (leaving search or going up a folder) and the cursor keys each run their operation when no earlier binding matches. A key bound to nothing is passed on. |
| LyricsInput.CurrentLine | src/app/inputs/lyrics.rs:20-26 | The current line is the one before the first line that has not started yet: 0 when that is the first line, the last line when all have started. |
| LyricsInput.CurrentLineIsLastStarted | src/app/inputs/lyrics.rs:20-26 | For time-ordered lyrics that have begun, the current line is the last line that has started. |
| LyricsInput.Nav | src/app/inputs/lyrics.rs:17-53 | Down moves to min(cur+1, last) and up to cur−1, stopping at 0. The scroll offset follows the selection and the scroll time is stamped. Lyrics that are not loaded do not react. |
| LyricsInput.NavRoundTrip | src/app/inputs/lyrics.rs:17-53 | The selection stays on a line, and up then down (or down then up) returns to it away from the ends. |
| LyricsInput.SeekToLine | src/app/inputs/lyrics.rs:55-75 | A seek happens exactly when loaded lyrics have a selection on a line. It goes to that line's time in seconds and clears the selection, offset and scroll time. Otherwise nothing changes. |
| LyricsInput.HandleLyricsKey | src/app/inputs/lyrics.rs:13-77 | Outside the lyrics view nothing is handled, and lyrics that are not loaded do not react. The lyrics themselves never change, the selection stays in range, and a seek leaves no selection. |
| LyricsInput.LyricsBindingsRun | src/app/inputs/lyrics.rs:13-77 | In the lyrics view, in the order the handler tests them: either down binding runs `Nav` down from the track position, then either up binding runs `Nav` up, then the seek key runs `SeekToLine` and returns its target. Each is consumed even without loaded lyrics. Any other key is passed on with nothing changed. |
| LyricsInput.TrackMs | src/app/inputs/lyrics.rs:21 | The handler reads the last reported track position, or 0 without a track. |
| LyricsInput.TrackMsLagsPosition | src/app/inputs/lyrics.rs:21 | That position equals the interpolated playback position unless a track is playing with a recorded update. Then, while the report lies within the track, it is never ahead of the interpolated position. |
| LibraryHelpers.LastComponent | src/app/library_helpers.rs:15 | The display name is the longest '/'-free suffix of the entry's path. |
| LibraryHelpers.JoinPath | src/app/library_helpers.rs:21-25 | The full path is the name under an empty parent, otherwise parent + "/" + name. |
| LibraryHelpers.LastAfterSlash | src/app/library_helpers.rs:15 | Whatever precedes a '/' in a path does not appear in its display name. |
| LibraryHelpers.JoinPathLast | src/app/library_helpers.rs:15-25 | An item's display name does not depend on the folder it is listed in. |
| LibraryHelpers.Hidden | src/app/library_helpers.rs:16-49 | An entry is skipped exactly when its display name starts with '.' or consists only of whitespace. That is the folder test at line 16 and the song test at line 49. |
| LibraryHelpers.FolderOf | src/app/library_helpers.rs:15-32 | A directory whose name does not start with '.' and is not blank becomes a folder item, with its display name and full path. |
| LibraryHelpers.TitleOf | src/app/library_helpers.rs:53-56 | A song's title is its tag title when that is not blank, else its file name. |
| LibraryHelpers.SongOf | src/app/library_helpers.rs:43-64 | A song whose file name is not hidden becomes a song item with its title, artist, duration and path. |
| LibraryHelpers.FolderItemsFaithful | src/app/library_helpers.rs:13-36 | Every folder item comes from a visible directory entry, and every visible directory entry gives one. |
| LibraryHelpers.SongItemsFaithful | src/app/library_helpers.rs:38-66 | Every song item comes from a visible song, and every visible song gives one. |
| LibraryHelpers.PrecedesTotal | src/app/library_helpers.rs:69-73 | Any two items are ordered one way or the other. |
| LibraryHelpers.PrecedesTrans | src/app/library_helpers.rs:69-73 | For folders and songs the order is transitive. |
| LibraryHelpers.SortItems | src/app/library_helpers.rs:69-73 | The sort returns the same items, each as many times. |
| LibraryHelpers.SortItemsSorted | src/app/library_helpers.rs:69-73 | The sorted folders and songs are in order. |
| LibraryHelpers.SortedMeaning | src/app/library_helpers.rs:69-73 | In sorted order no song precedes a folder, and items of one kind ascend by lowercased name. |
| LibraryHelpers.FetchDirectoryItems | src/app/library_helpers.rs:6-76 | The listing holds exactly the visible folders and songs. Folders come first, and each kind is ordered by lowercased name. A failed query contributes nothing. |
| LibraryHelpers.ItemsListed | src/app/library_helpers.rs:6-66 | A listing only ever holds folders and songs. |
| Spotify.AsU64 | src/player/controller/macos/spotify.rs:135 | `as u64` truncates toward zero, saturates at both ends and sends NaN to 0. |
| Spotify.Millis | src/player/controller/macos/spotify.rs:127 | The position in seconds is multiplied by 1000. Infinities and NaN pass through. |
| Spotify.ReplaceChar | src/player/controller/macos/spotify.rs:127 | Every ',' becomes '.', and nothing else changes. |
| Spotify.StateOf | src/player/controller/macos/spotify.rs:129-133 | "playing" means Playing, "paused" means Paused, and anything else means Stopped. |
| Spotify.ArtworkOf | src/player/controller/macos/spotify.rs:149 | An empty or "NONE" artwork field means no artwork. |
| Spotify.VolumeOf | src/player/controller/macos/spotify.rs:136-140 | The volume is the eighth field as a u32, and 0 when that field is missing or does not parse. |
| Spotify.ParseSpotifyOutput | src/player/controller/macos/spotify.rs:117-158 | A reply that trims to "STOPPED" gives no track, and so do fewer than 7 fields. Otherwise each track field comes from its position in the reply, the source is "Spotify" and a volume is always present. |
| Spotify.ReplyRoundTrip | src/player/controller/macos/spotify.rs:117-158 | The reply the AppleScript writes for a track parses back to that track. |
| Numbers.ParseUint | src/app/lyrics.rs:427-435 | A number parses only from an optional '+' followed by digits alone, and never exceeds the type's maximum. A plain digit string parses exactly when its value fits. |
| Numbers.ParseUintRoundTrip | src/audio/sources/common.rs:53-55 | Writing a number in decimal and parsing it back gives the number whenever it fits the type. |
| Text.Trim | src/app/lyrics.rs:316 | The trimmed text is an infix of the input with no whitespace at either end. It is empty exactly when the text is all whitespace. |
| Text.TrimCutsWhitespace | src/app/lyrics.rs:316 | Everything trimming cuts from either end is whitespace. |
| Text.Before | src/app/lyrics.rs:90-92 | The text before the first match is a prefix of the input, and no match starts inside it. It is followed by a match unless the pattern does not occur, in which case it is the whole text. |
| Text.RemoveAll | src/app/lyrics.rs:96-102 | `replace(p, "")` returns the text unchanged exactly when `p` does not occur in it, and otherwise removes at least one copy of `p`. |
| Text.Lines | src/app/lyrics.rs:312 | `lines()` yields lines that contain no '\n', and no more lines than the text has characters. |
| Text.LinesCount | src/app/lyrics.rs:312 | `lines()` yields one line per newline, plus one for a final unterminated line. |
| Text.LinesCons | src/audio/sources/common.rs:48 | A line without '\n' and without a trailing '\r', followed by a newline, comes out as the first line, followed by the lines of the rest. |

## Left out

- Rendering (ratatui), the event loop, threads, the cpal output stream, sockets, opening the FIFO and the back-pressure sleeps. Only the decisions they feed are modelled.
- The biquad filters, limiters and visualiser are left out. Only the balance law of `process_sample` is modelled.
- MPD, AppleScript, SwitchAudioSource and file-system calls are parameters: queue shifts and deletes, playlists, directory listings, tag reads, the device list, switch results, the state-file contents and the status reply.
- The clock is a parameter, in milliseconds.
- Toasts and their expiry (`show_toast`, `on_tick`) are left out because they only feed rendering.
- Adding to the queue (`add_to_queue`, `queue_folder_recursive`) is left out. It is MPD calls plus a toast, with nothing to decide locally.
- Playing, pausing, skipping tracks and shuffling are left out. They are calls into the player with no local state beyond the flag MPD reports.
- `f32`/`f64` rounding is left out, because all gain, dB and sample arithmetic is over exact reals.
- FifoSource.SampleAt: the [−1, 1) bound holds over exact reals only. In `f32`, `s as f32` rounds a 32-bit sample s ≥ 2^31 − 64 up to 2^31, so fifo.rs:207 yields 1.0 for those samples.
- Spotify.ParseSpotifyOutput: the decimal grammar of Rust's `f64` parser is a parameter, and the product `secs * 1000.0` is exact rather than rounded.
- Lyrics.CleanArtist: lowercasing covers ASCII letters only, because Unicode case mapping is not modelled.
- Lyrics.CleanTitle: lowercasing covers ASCII letters only, for the same reason.
- LibraryHelpers.FetchDirectoryItems: names are compared after ASCII lowercasing where the source uses Unicode `to_lowercase`, so non-ASCII names such as "Üb" and "äa" may order differently.
- LibraryHelpers.SortItems: the sort is stable, as Rust's `sort_by` is, but stability (names equal after lowercasing keep their listing order) is not stated; the contract gives the permutation and the order.
- Config.LoadState: the migration's immediate `save` of the legacy state to `state.toml` is file output and is left out.
- AppState.CurrentPositionMs: position plus elapsed time is unbounded, so u64 overflow (more than 584 million years) is not modelled.
- Lyrics.CleanTitle: the phrase removals are stated only through CleanTitleFixesCleanInput (clean input is a fixed point), not phrase by phrase.
- Lyrics.ParseTimestamp: the result is stated through the split lemmas, which need the digit groups to be free of ':' and '.', rather than for every input at once.
- PlayerInput.HandlePlayerKey: the seek id counter is unbounded, so u64 wrap-around after 2^64 seeks is not modelled.
- AppState.NextPreset: requires a non-empty preset list, because the source divides by the count. The list always holds the 20 built-ins.
- AppState.PrevPreset: requires a non-empty preset list, for the same reason.
- LibraryHelpers.SortItemsSorted: sortedness is proved for folder and song items, the only kinds a directory listing holds. The comparison is modelled for all kinds.
- LibraryInput.LaterKeys: the selection is promised to stay in range only when the reloaded playlist list is at most one shorter. MPD is shared, so a reply shorter by more is possible, and then the source leaves the selection past the end (DeleteCanLeaveSelectionPastEnd).
- LibraryInput.HandleLibraryKey: the same condition on the reloaded playlist list, for the same reason.
- `src/app/lyrics.rs` fetching, caching and the lrclib search are left out as network and file I/O. Only `parse` and the cleaning and parsing helpers are modelled.

## Findings

| source | as written | input that shows it | evidently intended | confidence | as-written member | corrected member |
|---|---|---|---|---|---|---|
| src/audio/sources/http.rs:147-167 | The new rate and channel count are stored before the stream rebuild. A failed rebuild drops the connection, and on reconnect the same header compares equal to the stored format, so no rebuild is tried. | Start at 44100 Hz stereo. A header announces 48000 Hz stereo and the rebuild fails. The next connection sends the same header and the rebuild now succeeds. | The 48 kHz data plays through the stream built for 44.1 kHz, when it should be rebuilt on the next connection. | not executed | HttpSource.ConnectAsWrittenPlaysStale | HttpSource.Connect |
| src/audio/sources/fifo.rs:86-135 | `current_*` and the frame size are updated before `build_audio_stream`. On error the old stream stays, and later polls of the same format see no change. | Start at 44100/16/2. A poll reports 48000/16/2 and the rebuild fails. The next poll reports 48000/16/2 again. | The next poll should retry the rebuild; instead the stream stays at 44.1 kHz. | not executed | FifoSource.PollAsWrittenStaysStale | FifoSource.Poll |
| src/audio/sources/http.rs:146-167 | The shared decision: compare against the recorded format rather than the one the stream was built for. | Formats a ≠ b, from a synced state on a: observe b and fail, then observe b and succeed. | Comparing against the built stream's format, so that a rebuild is retried until it succeeds. | not executed | FormatSwitch.AsWrittenStaysStale | FormatSwitch.ApplyResyncs |
