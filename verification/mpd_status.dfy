/** The MPD status reply parser (src/audio/sources/common.rs): the first
    `audio: rate:bits:channels` line of a `status` reply gives the format
    of the PCM stream MPD writes to its FIFO. */
module MpdStatus {
  import opened Wrappers
  import Text
  import Numbers
  import Lists

  const PREFIX: string := "audio: "

  /** The format MPD reports: a u32 sample rate and u16 bit depth and
      channel count. */
  datatype AudioFormat = AudioFormat(rate: nat, bits: nat, channels: nat)

  predicate FitsTypes(f: AudioFormat) {
    f.rate <= Numbers.U32_MAX && f.bits <= Numbers.U16_MAX && f.channels <= Numbers.U16_MAX
  }

  /** The colon-separated fields after the prefix (all leading copies of
      the prefix are stripped). */
  function Fields(line: string): (r: seq<string>)
    ensures |r| >= 1
  {
    Text.SplitChar(Text.TrimStartMatches(line, PREFIX), ':')
  }

  /** A line the parser stops at: it starts with the prefix and has at
      least three fields. */
  predicate Qualifies(line: string) {
    Text.StartsWith(line, PREFIX) && |Fields(line)| >= 3
  }

  /** One line's verdict: `None` to keep looking, `Some(None)` when the
      line qualifies but a field does not parse, `Some(Some(f))` for a
      format. Fields past the third are ignored. */
  function AudioLine(line: string): (r: Option<Option<AudioFormat>>)
    ensures r.Some? <==> Qualifies(line)
    ensures r.Some? && r.value.Some? ==> FitsTypes(r.value.value)
    ensures r.Some? && r.value.Some? ==>
      var p := Fields(line);
      && Numbers.ParseUint(p[0], Numbers.U32_MAX) == Some(r.value.value.rate)
      && Numbers.ParseUint(p[1], Numbers.U16_MAX) == Some(r.value.value.bits)
      && Numbers.ParseUint(p[2], Numbers.U16_MAX) == Some(r.value.value.channels)
    ensures r.Some? && r.value.None? ==>
      var p := Fields(line);
      || Numbers.ParseUint(p[0], Numbers.U32_MAX).None?
      || Numbers.ParseUint(p[1], Numbers.U16_MAX).None?
      || Numbers.ParseUint(p[2], Numbers.U16_MAX).None?
  {
    if !Qualifies(line) then None
    else
      var p := Fields(line);
      var rate := Numbers.ParseUint(p[0], Numbers.U32_MAX);
      var bits := Numbers.ParseUint(p[1], Numbers.U16_MAX);
      var chans := Numbers.ParseUint(p[2], Numbers.U16_MAX);
      if rate.Some? && bits.Some? && chans.Some? then Some(Some(AudioFormat(rate.value, bits.value, chans.value)))
      else Some(None)
  }

  /** The scan over the reply's lines: the first qualifying line decides,
      even when its fields do not parse. */
  function ScanLines(lines: seq<string>): (r: Option<AudioFormat>)
    ensures r == (match Lists.FindIndex(Qualifies, lines)
                  case None => None
                  case Some(i) => AudioLine(lines[i]).value)
    decreases |lines|
  {
    if lines == [] then None
    else match AudioLine(lines[0])
      case Some(x) => x
      case None => ScanLines(lines[1..])
  }

  /** `parse_mpd_status`: the verdict of the first qualifying line of the
      reply, nothing when no line qualifies. */
  function ParseMpdStatus(response: string): (r: Option<AudioFormat>)
    ensures r.Some? ==> FitsTypes(r.value)
    ensures var lines := Text.Lines(response);
      r == (match Lists.FindIndex(Qualifies, lines)
            case None => None
            case Some(i) => AudioLine(lines[i]).value)
  {
    ScanLines(Text.Lines(response))
  }

  /** A reply with no line starting with the prefix has no format. */
  lemma NoAudioLine(response: string)
    requires forall i :: 0 <= i < |Text.Lines(response)| ==> !Text.StartsWith(Text.Lines(response)[i], PREFIX)
    ensures ParseMpdStatus(response).None?
  {
    assert Lists.FindIndex(Qualifies, Text.Lines(response)).None?;
  }

  /** Lines that start with the prefix but have fewer than three fields are
      skipped: what follows them decides. */
  lemma ShortLineSkipped(line: string, rest: seq<string>)
    requires Text.StartsWith(line, PREFIX) && |Fields(line)| < 3
    ensures ScanLines([line] + rest) == ScanLines(rest)
  {
    assert ([line] + rest)[1..] == rest;
  }

  /** A first qualifying line with a bad field ends the scan with nothing,
      whatever follows. */
  lemma BadFieldStops(line: string, rest: seq<string>)
    requires AudioLine(line) == Some(None)
    ensures ScanLines([line] + rest).None?
  {
  }

  // ---------------------------------------------------------------------
  // Round trip
  // ---------------------------------------------------------------------

  /** The status line MPD writes for a format. */
  function FormatLine(f: AudioFormat): string {
    PREFIX + Numbers.NatToString(f.rate) + ":" + Numbers.NatToString(f.bits) + ":" + Numbers.NatToString(f.channels)
  }

  /** Stripping the prefix from a line that starts with one copy of it and
      then a digit leaves the rest. */
  lemma StripPrefix(x: string)
    requires |x| > 0 && Numbers.IsDigit(x[0])
    ensures Text.TrimStartMatches(PREFIX + x, PREFIX) == x
  {
    assert Text.StartsWith(PREFIX + x, PREFIX);
    assert (PREFIX + x)[|PREFIX|..] == x;
    assert !Text.StartsWith(x, PREFIX) by {
      assert x[0] != PREFIX[0];
    }
  }

  /** The three numbers split apart again at the colons. */
  lemma SplitNumbers(a: string, b: string, c: string)
    requires ':' !in a && ':' !in b && ':' !in c
    ensures Text.SplitChar(a + ":" + b + ":" + c, ':') == [a, b, c]
  {
    assert a + ":" + b + ":" + c == a + [':'] + (b + [':'] + c);
    Text.SplitCharCons(a, ':', b + [':'] + c);
    Text.SplitCharTwo(b, ':', c);
  }

  /** The decimal rendering has no colon and starts with a digit. */
  lemma RenderedNumber(n: nat)
    ensures ':' !in Numbers.NatToString(n) && Numbers.IsDigit(Numbers.NatToString(n)[0])
  {
    Numbers.DigitsExclude(Numbers.NatToString(n), ':');
  }

  /** The fields of a formatted line are the three renderings. */
  lemma FormatLineFields(f: AudioFormat)
    ensures Text.StartsWith(FormatLine(f), PREFIX)
    ensures Fields(FormatLine(f)) ==
      [Numbers.NatToString(f.rate), Numbers.NatToString(f.bits), Numbers.NatToString(f.channels)]
  {
    var a := Numbers.NatToString(f.rate);
    var b := Numbers.NatToString(f.bits);
    var c := Numbers.NatToString(f.channels);
    RenderedNumber(f.rate);
    RenderedNumber(f.bits);
    RenderedNumber(f.channels);
    var x := a + ":" + b + ":" + c;
    assert FormatLine(f) == PREFIX + x;
    assert x[0] == a[0];
    StripPrefix(x);
    SplitNumbers(a, b, c);
  }

  /** A formatted line that fits the types parses back to its format. */
  lemma AudioLineRoundTrip(f: AudioFormat)
    requires FitsTypes(f)
    ensures AudioLine(FormatLine(f)) == Some(Some(f))
  {
    FormatLineFields(f);
    Numbers.ParseUintRoundTrip(f.rate, Numbers.U32_MAX);
    Numbers.ParseUintRoundTrip(f.bits, Numbers.U16_MAX);
    Numbers.ParseUintRoundTrip(f.channels, Numbers.U16_MAX);
  }

  /** A formatted line ends in a digit and holds no line break. */
  lemma FormatLineShape(f: AudioFormat)
    ensures '\n' !in FormatLine(f)
    ensures |FormatLine(f)| > 0 && FormatLine(f)[|FormatLine(f)| - 1] != '\r'
  {
    var a := Numbers.NatToString(f.rate);
    var b := Numbers.NatToString(f.bits);
    var c := Numbers.NatToString(f.channels);
    Numbers.DigitsExclude(a, '\n');
    Numbers.DigitsExclude(b, '\n');
    Numbers.DigitsExclude(c, '\n');
    Numbers.DigitsExclude(c, '\r');
    var s := FormatLine(f);
    assert s == PREFIX + a + ":" + b + ":" + c;
    assert s[|s| - 1] == c[|c| - 1];
  }

  /** A reply that opens with a formatted line parses to that format,
      whatever follows. */
  lemma StatusRoundTrip(f: AudioFormat, rest: string)
    requires FitsTypes(f)
    ensures ParseMpdStatus(FormatLine(f) + "\n" + rest) == Some(f)
  {
    FormatLineShape(f);
    Text.LinesCons(FormatLine(f), rest);
    AudioLineRoundTrip(f);
  }
}
