/** The Spotify controller's reading of its AppleScript reply
    (src/player/controller/macos/spotify.rs): either the word `STOPPED`
    or the fields name, artist, album, duration, position, state, artwork
    and volume joined by `|||`. */
module Spotify {
  import opened Wrappers
  import Text
  import Numbers
  import opened Player

  const SEP: string := "|||"
  const STOPPED: string := "STOPPED"
  const NO_ARTWORK: string := "NONE"
  const SOURCE: string := "Spotify"

  /** What `str::parse::<f64>` can produce: a finite value, an infinity or
      NaN (Rust accepts "inf" and "NaN"). The decimal grammar itself is a
      parameter of the parser below. */
  datatype F64 = Finite(v: real) | Infinite(positive: bool) | NaN

  /** `x as u64`: truncation toward zero, saturating at both ends, NaN to 0. */
  function AsU64(x: F64): (r: nat)
    ensures r <= Numbers.U64_MAX
    ensures x.Finite? && 0.0 <= x.v < (Numbers.U64_MAX + 1) as real ==> r as real <= x.v < r as real + 1.0
    ensures x.Finite? && x.v < 1.0 ==> r == 0
    ensures x.Finite? && x.v >= (Numbers.U64_MAX + 1) as real ==> r == Numbers.U64_MAX
    ensures x.NaN? || x == Infinite(false) ==> r == 0
    ensures x == Infinite(true) ==> r == Numbers.U64_MAX
  {
    match x
    case NaN => 0
    case Infinite(pos) => if pos then Numbers.U64_MAX else 0
    case Finite(v) =>
      if v < 1.0 then 0
      else if v >= (Numbers.U64_MAX + 1) as real then Numbers.U64_MAX
      else v.Floor
  }

  /** Seconds to milliseconds (`secs * 1000.0`); infinities and NaN stay
      what they are. */
  function Millis(x: F64): (r: F64)
    ensures r.Finite? <==> x.Finite?
    ensures r.Finite? ==> r.v == x.v * 1000.0
    ensures !x.Finite? ==> r == x
  {
    if x.Finite? then Finite(x.v * 1000.0) else x
  }

  /** `s.replace(from, to)` for single characters. */
  function ReplaceChar(s: string, from: char, to: char): (r: string)
    ensures |r| == |s|
    ensures forall i :: 0 <= i < |s| ==> r[i] == (if s[i] == from then to else s[i])
  {
    if s == [] then [] else [if s[0] == from then to else s[0]] + ReplaceChar(s[1..], from, to)
  }

  /** The state field: "playing" and "paused" are recognised, anything else
      means stopped. */
  function StateOf(s: string): (r: PlayerState)
    ensures r == Playing <==> s == "playing"
    ensures r == Paused <==> s == "paused"
  {
    if s == "playing" then Playing else if s == "paused" then Paused else Stopped
  }

  /** The artwork field: empty or "NONE" means no artwork. */
  function ArtworkOf(s: string): (r: Option<string>)
    ensures r.None? <==> s == [] || s == NO_ARTWORK
    ensures r.Some? ==> r.value == s
  {
    if s == [] || s == NO_ARTWORK then None else Some(s)
  }

  /** The volume: the eighth field as a u32 when there is one and it
      parses, 0 otherwise. */
  function VolumeOf(parts: seq<string>): (r: nat)
    ensures r <= Numbers.U32_MAX
    ensures |parts| < 8 ==> r == 0
    ensures |parts| >= 8 && Numbers.ParseUint(parts[7], Numbers.U32_MAX).None? ==> r == 0
    ensures |parts| >= 8 && Numbers.ParseUint(parts[7], Numbers.U32_MAX).Some? ==>
      r == Numbers.ParseUint(parts[7], Numbers.U32_MAX).value
  {
    if |parts| >= 8 then Numbers.ParseUint(parts[7], Numbers.U32_MAX).GetOr(0) else 0
  }

  /** A numeric field read as f64, 0.0 when it does not parse. */
  function FloatOr0(s: string, parseFloat: string -> Option<F64>): F64 {
    parseFloat(s).GetOr(Finite(0.0))
  }

  /** `parse_spotify_output`; `parseFloat` is Rust's f64 parser. */
  function ParseSpotifyOutput(output: string, parseFloat: string -> Option<F64>): (r: Option<TrackInfo>)
    ensures Text.Trim(output) == STOPPED ==> r.None?
    ensures Text.Trim(output) != STOPPED ==> (r.Some? <==> |Text.SplitStr(output, SEP)| >= 7)
    ensures r.Some? ==>
      var parts := Text.SplitStr(output, SEP);
      var t := r.value;
      && t.name == parts[0] && t.artist == parts[1] && t.album == parts[2]
      && t.durationMs == AsU64(FloatOr0(parts[3], parseFloat))
      && t.positionMs == AsU64(Millis(FloatOr0(ReplaceChar(parts[4], ',', '.'), parseFloat)))
      && (t.state == Playing <==> parts[5] == "playing")
      && (t.state == Paused <==> parts[5] == "paused")
      && (t.artworkUrl.None? <==> parts[6] == [] || parts[6] == NO_ARTWORK)
      && (t.artworkUrl.Some? ==> t.artworkUrl.value == parts[6])
      && t.source == SOURCE
      && t.volume.Some? && t.volume.value <= Numbers.U32_MAX
      && (|parts| < 8 ==> t.volume.value == 0)
  {
    if Text.Trim(output) == STOPPED then None
    else
      var parts := Text.SplitStr(output, SEP);
      if |parts| < 7 then None
      else
        Some(TrackInfo(
          parts[0], parts[1], parts[2],
          ArtworkOf(parts[6]),
          AsU64(FloatOr0(parts[3], parseFloat)),
          AsU64(Millis(FloatOr0(ReplaceChar(parts[4], ',', '.'), parseFloat))),
          StateOf(parts[5]),
          SOURCE,
          Some(VolumeOf(parts))))
  }

  // ---------------------------------------------------------------------
  // Round trip: the reply the AppleScript writes for a track
  // ---------------------------------------------------------------------

  function StateText(s: PlayerState): string {
    match s
    case Playing => "playing"
    case Paused => "paused"
    case Stopped => "stopped"
  }

  function ArtworkText(a: Option<string>): string {
    a.GetOr(NO_ARTWORK)
  }

  /** The eight fields of the reply for track `t`, with the duration and
      position written as `durText` and `posText`. */
  function ReplyFields(t: TrackInfo, durText: string, posText: string): (r: seq<string>)
    ensures |r| == 8
  {
    [t.name, t.artist, t.album, durText, posText, StateText(t.state),
     ArtworkText(t.artworkUrl), Numbers.NatToString(t.volume.GetOr(0))]
  }

  function Reply(t: TrackInfo, durText: string, posText: string): string {
    Text.Join(ReplyFields(t, durText, posText), SEP)
  }

  /** A track the reply can carry: no field holds '|', the artwork is not
      one of the "no artwork" spellings, the volume is a u32, and the
      duration and position are what the two numeric texts read as. */
  predicate Encodable(t: TrackInfo, durText: string, posText: string, parseFloat: string -> Option<F64>) {
    && '|' !in t.name && '|' !in t.artist && '|' !in t.album
    && '|' !in durText && '|' !in posText
    && (t.artworkUrl.Some? ==> '|' !in t.artworkUrl.value && t.artworkUrl.value != [] && t.artworkUrl.value != NO_ARTWORK)
    && t.volume.Some? && t.volume.value <= Numbers.U32_MAX
    && t.source == SOURCE
    && t.durationMs == AsU64(FloatOr0(durText, parseFloat))
    && t.positionMs == AsU64(Millis(FloatOr0(ReplaceChar(posText, ',', '.'), parseFloat)))
  }

  /** A string without '|' holds no separator. */
  lemma SplitNoSep(a: string)
    requires '|' !in a
    ensures Text.SplitStr(a, SEP) == [a]
  {
    forall j | 0 <= j <= |a|
      ensures !Text.OccursAt(a, SEP, j)
    {
      if j + 3 <= |a| {
        assert a[j..j + 3][0] == a[j];
      }
    }
  }

  /** The first separator after a '|'-free piece ends that piece. */
  lemma SplitSepCons(a: string, rest: string)
    requires '|' !in a
    ensures Text.SplitStr(a + SEP + rest, SEP) == [a] + Text.SplitStr(rest, SEP)
  {
    var s := a + SEP + rest;
    assert Text.OccursAt(s, SEP, |a|) by {
      assert s[|a|..|a| + 3] == SEP;
    }
    forall j | 0 <= j < |a|
      ensures !Text.OccursAt(s, SEP, j)
    {
      assert s[j] == a[j];
    }
    assert Text.Find(s, SEP) == Some(|a|);
    assert s[..|a|] == a;
    assert s[|a| + 3..] == rest;
  }

  /** Splitting a join of '|'-free pieces gives the pieces back. */
  lemma {:induction false} SplitJoin(ps: seq<string>)
    requires |ps| >= 1
    requires forall i :: 0 <= i < |ps| ==> '|' !in ps[i]
    ensures Text.SplitStr(Text.Join(ps, SEP), SEP) == ps
    decreases |ps|
  {
    if |ps| == 1 {
      SplitNoSep(ps[0]);
    } else {
      SplitSepCons(ps[0], Text.Join(ps[1..], SEP));
      SplitJoin(ps[1..]);
    }
  }

  /** A character that is not whitespace survives trimming. */
  lemma TrimKeeps(s: string, k: nat)
    requires k < |s| && !Text.IsWhitespace(s[k])
    ensures s[k] in Text.Trim(s)
  {
    var t := Text.TrimStart(s);
    var off := |s| - |t|;
    assert k >= off;
    assert t[k - off] == s[k];
    var u := Text.TrimEnd(t);
    assert k - off < |u|;
    assert u[k - off] == s[k];
  }

  /** A reply of eight fields is never the stop marker. */
  lemma ReplyIsNotStopped(ps: seq<string>)
    requires |ps| >= 2
    ensures Text.Trim(Text.Join(ps, SEP)) != STOPPED
  {
    JoinHasBar(ps);
    BarIsNotStopped(Text.Join(ps, SEP), |ps[0]|);
  }

  /** A text with a '|' never trims to the stop marker. */
  lemma BarIsNotStopped(s: string, k: nat)
    requires k < |s| && s[k] == '|'
    ensures Text.Trim(s) != STOPPED
  {
    TrimKeeps(s, k);
    BarFree(Text.Trim(s));
  }

  /** The stop marker holds no '|'. */
  lemma BarFree(t: string)
    requires '|' in t
    ensures t != STOPPED
  {
  }

  /** The first separator of a join of two or more pieces follows the
      first piece. */
  lemma JoinHasBar(ps: seq<string>)
    requires |ps| >= 2
    ensures |ps[0]| < |Text.Join(ps, SEP)| && Text.Join(ps, SEP)[|ps[0]|] == '|'
  {
    var rest := Text.Join(ps[1..], SEP);
    assert Text.Join(ps, SEP) == ps[0] + SEP + rest;
    assert (ps[0] + SEP + rest)[|ps[0]|] == SEP[0];
  }

  /** Parsing the reply written for an encodable track gives the track
      back. */
  lemma ReplyRoundTrip(t: TrackInfo, durText: string, posText: string, parseFloat: string -> Option<F64>)
    requires Encodable(t, durText, posText, parseFloat)
    ensures ParseSpotifyOutput(Reply(t, durText, posText), parseFloat) == Some(t)
  {
    var ps := ReplyFields(t, durText, posText);
    Numbers.DigitsExclude(Numbers.NatToString(t.volume.value), '|');
    assert '|' !in StateText(t.state);
    assert '|' !in NO_ARTWORK;
    SplitJoin(ps);
    ReplyIsNotStopped(ps);
    ParseOfFields(Reply(t, durText, posText), ps, parseFloat);
    Numbers.ParseUintRoundTrip(t.volume.value, Numbers.U32_MAX);
    assert StateOf(StateText(t.state)) == t.state;
  }

  /** A reply that is not the stop marker and splits into at least seven
      fields reads as the track those fields describe. */
  lemma ParseOfFields(output: string, ps: seq<string>, parseFloat: string -> Option<F64>)
    requires Text.Trim(output) != STOPPED && Text.SplitStr(output, SEP) == ps && |ps| >= 7
    ensures ParseSpotifyOutput(output, parseFloat) == Some(TrackInfo(
      ps[0], ps[1], ps[2], ArtworkOf(ps[6]),
      AsU64(FloatOr0(ps[3], parseFloat)),
      AsU64(Millis(FloatOr0(ReplaceChar(ps[4], ',', '.'), parseFloat))),
      StateOf(ps[5]), SOURCE, Some(VolumeOf(ps))))
  {
  }
}
