/** Configurable key bindings and how a binding string is matched against a
    key press (src/app/keys.rs). */
module Keys {
  import Text

  /** The key codes a binding can name; every other key is `OtherKey`. */
  datatype KeyCode =
    | Char(c: char)
    | Enter | Backspace | Esc | Tab | BackTab
    | Up | Down | Left | Right
    | OtherKey

  /** A key press. Only the SHIFT modifier takes part in matching. */
  datatype KeyEvent = KeyEvent(code: KeyCode, shift: bool)

  /** The binding strings that name a non-character key (or the space bar). */
  predicate IsNamedKey(s: string) {
    s in {"Space", "Enter", "Backspace", "Esc", "Tab", "BackTab", "Up", "Down", "Left", "Right"}
  }

  /** The key code a named binding stands for. */
  function NamedCode(s: string): (k: KeyCode)
    requires IsNamedKey(s)
  {
    match s
    case "Space" => Char(' ')
    case "Enter" => Enter
    case "Backspace" => Backspace
    case "Esc" => Esc
    case "Tab" => Tab
    case "BackTab" => BackTab
    case "Up" => Up
    case "Down" => Down
    case "Left" => Left
    case "Right" => Right
  }

  predicate IsAsciiUpper(c: char) {
    'A' <= c <= 'Z'
  }

  /** A string whose UTF-8 encoding is one byte long: a single ASCII
      character. */
  predicate IsSingleByte(s: string) {
    |s| == 1 && s[0] as int < 128
  }

  /** `KeyConfig::matches`: named keys match their own code; a one-byte
      binding matches that character, and an upper-case one also matches
      its lower-case letter pressed with SHIFT; anything else never
      matches. */
  function Matches(e: KeyEvent, s: string): (r: bool)
    ensures IsNamedKey(s) ==> (r <==> e.code == NamedCode(s))
    ensures !IsNamedKey(s) && !IsSingleByte(s) ==> !r
    ensures IsSingleByte(s) && !IsAsciiUpper(s[0]) ==> (r <==> e.code == Char(s[0]))
    ensures IsSingleByte(s) && IsAsciiUpper(s[0]) ==>
      (r <==> e.code == Char(s[0]) || (e.code == Char(Text.LowerChar(s[0])) && e.shift))
  {
    if IsNamedKey(s) then e.code == NamedCode(s)
    else if IsSingleByte(s) then
      if IsAsciiUpper(s[0]) then
        e.code == Char(s[0]) || (e.code == Char(Text.LowerChar(s[0])) && e.shift)
      else e.code == Char(s[0])
    else false
  }

  /** A lower-case letter binding ignores SHIFT and never matches its
      upper-case letter. */
  lemma LowercaseBindingIgnoresShift(c: char, shift: bool)
    requires 'a' <= c <= 'z'
    ensures Matches(KeyEvent(Char(c), shift), [c])
    ensures !Matches(KeyEvent(Char((c as int - 32) as char), shift), [c])
  {
  }

  /** An upper-case binding is reachable both by the upper-case character
      and by SHIFT plus the lower-case letter, but not by the bare
      lower-case letter. */
  lemma UppercaseBindingWithShift(c: char)
    requires 'A' <= c <= 'Z'
    ensures Matches(KeyEvent(Char(c), false), [c])
    ensures Matches(KeyEvent(Char((c as int + 32) as char), true), [c])
    ensures !Matches(KeyEvent(Char((c as int + 32) as char), false), [c])
  {
    assert Text.LowerChar(c) == (c as int + 32) as char;
  }

  /** `KeyConfig::display`: arrows become glyphs, BackTab "S-Tab",
      Backspace "Bksp"; everything else is shown as written. */
  function Display(s: string): (r: string)
    ensures !IsNamedKey(s) ==> r == s
    ensures r !in {"Up", "Down", "Left", "Right", "BackTab", "Backspace"}
  {
    match s
    case "Up" => "↑"
    case "Down" => "↓"
    case "Left" => "←"
    case "Right" => "→"
    case "BackTab" => "S-Tab"
    case "Backspace" => "Bksp"
    case _ => s
  }

  /** Displaying a displayed binding changes nothing. */
  lemma DisplayIdempotent(s: string)
    ensures Display(Display(s)) == Display(s)
  {
  }

  /** Every binding the UI can show. */
  datatype KeyConfig = KeyConfig(
    quit: string, playPause: string, nextTrack: string, prevTrack: string,
    volumeUp: string, volumeDown: string, toggleKeyhints: string,
    toggleAudioInfo: string, searchGlobal: string,
    viewLyrics: string, viewVisualizer: string, viewLibrary: string, viewEq: string,
    seekForward: string, seekBackward: string,
    navUp: string, navUpAlt: string, navDown: string, navDownAlt: string,
    navLeft: string, navLeftAlt: string, navRight: string, navRightAlt: string,
    enterDir: string, backDir: string, backDirAlt: string, addToQueue: string,
    savePlaylist: string, renamePlaylist: string, deleteItem: string, editTags: string,
    moveDown: string, moveUp: string, tabNext: string, tabPrev: string,
    seekToLine: string,
    bandNext: string, bandPrev: string, gainUp: string, gainDown: string,
    toggleEq: string, resetEq: string, resetLevels: string,
    nextPreset: string, prevPreset: string, savePreset: string, deletePreset: string,
    preampUp: string, preampDown: string, balanceRight: string, balanceLeft: string,
    crossfade: string, replayGain: string, deviceNext: string, devicePrev: string,
    shuffle: string, repeat: string)

  /** `KeyConfig::default`. With it the space bar plays/pauses, SHIFT+s
      saves a preset while plain s does not, Tab cycles presets, and "l"
      is not the alternative right key. */
  function DefaultKeys(): (k: KeyConfig)
    ensures Matches(KeyEvent(Char(' '), false), k.playPause)
    ensures Matches(KeyEvent(Char('s'), true), k.savePreset)
    ensures !Matches(KeyEvent(Char('s'), false), k.savePreset)
    ensures Matches(KeyEvent(Tab, false), k.nextPreset)
    ensures !Matches(KeyEvent(Char('l'), false), k.navRightAlt)
  {
    assert Text.LowerChar('S') == 's';
    KeyConfig(
      "q", "Space", "n", "p",
      "+", "-", "?",
      "i", "/",
      "1", "2", "3", "4",
      "l", "h",
      "k", "Up", "j", "Down",
      "h", "Left", "l", "Right",
      "Enter", "Backspace", "Esc", "a",
      "s", "r", "d", "t",
      "J", "K", "Tab", "BackTab",
      "Enter",
      "l", "h", "k", "j",
      "e", "r", "0",
      "Tab", "BackTab", "S", "X",
      "g", "G", "b", "B",
      "c", "R", "d", "D",
      "z", "x")
  }

}
