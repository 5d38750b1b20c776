/** The LRC lyric parser, its timestamp arithmetic, the search-query
    cleaners and the choice between synced and plain lyrics
    (src/app/lyrics.rs). Fetching, caching and the lrclib HTTP calls are
    outside the model. */
module Lyrics {
  import opened Wrappers
  import opened Text
  import opened Numbers
  import Lists

  /** One timed line of lyrics. */
  datatype LyricLine = LyricLine(timestampMs: nat, text: string)

  /** Unsigned 64-bit wrap-around of the stamp arithmetic (release build),
      by repeated subtraction of 2^64; `WrapU64IsMod` shows it is the
      remainder. */
  function WrapU64(x: nat): (r: nat)
    ensures r < U64_MOD
    ensures x < U64_MOD ==> r == x
    decreases x
  {
    if x < U64_MOD then x else WrapU64(x - U64_MOD)
  }

  /** The wrap is the remainder modulo 2^64. */
  lemma {:induction false} WrapU64IsMod(x: nat)
    ensures WrapU64(x) == x % U64_MOD
    decreases x
  {
    if x >= U64_MOD {
      WrapU64IsMod(x - U64_MOD);
      assert (x - U64_MOD) % U64_MOD == x % U64_MOD;
    }
  }

  /** The fraction after the '.': centiseconds when it has exactly two
      digits, milliseconds otherwise. */
  function ParseFraction(frac: string): (r: Option<nat>)
    ensures r.Some? <==> ParseUint(frac, U64_MAX).Some?
    ensures r.Some? && |frac| == 2 ==> r.value % 10 == 0 && r.value < 1000
    ensures r.Some? && |frac| != 2 ==> r == ParseUint(frac, U64_MAX)
  {
    match ParseUint(frac, U64_MAX)
    case None => None
    case Some(f) =>
      if |frac| == 2 then TwoCharsBelow100(frac); Some(f * 10)
      else Some(f)
  }

  /** A two-character u64 ("42" or "+7") is below 100. */
  lemma TwoCharsBelow100(s: string)
    requires |s| == 2 && ParseUint(s, U64_MAX).Some?
    ensures ParseUint(s, U64_MAX).value < 100
  {
    if s[0] == '+' {
      var d := s[1..];
      assert d[..0] == [];
      assert DigitsValue(d) == DigitValue(d[0]);
    } else {
      TwoDigitsBelow100(s);
    }
  }

  /** The part of a stamp after the ':' in milliseconds: "s" or "s.f"; only
      the piece after the first '.' is read. */
  function ParseSecondsField(field: string): (r: Option<nat>)
    ensures r.Some? ==> field != []
    ensures '.' !in field ==> (r.Some? <==> ParseUint(field, U64_MAX).Some?)
    ensures '.' !in field && r.Some? ==> r.value == ParseUint(field, U64_MAX).value * 1000
    ensures r.Some? ==> ParseUint(SplitChar(field, '.')[0], U64_MAX).Some?
  {
    var secParts := SplitChar(field, '.');
    match ParseUint(secParts[0], U64_MAX)
    case None => None
    case Some(seconds) =>
      if |secParts| == 1 then Some(seconds * 1000)
      else
        match ParseFraction(secParts[1])
        case None => None
        case Some(ms) => Some(seconds * 1000 + ms)
  }

  /** `parse_timestamp`: exactly one ':' separating the minutes from the
      seconds field. Every number is a u64 and the sum wraps modulo 2^64. */
  function ParseTimestamp(ts: string): (r: Option<nat>)
    ensures r.Some? ==> r.value < U64_MOD
  {
    var parts := SplitChar(ts, ':');
    if |parts| != 2 then None
    else
      match ParseUint(parts[0], U64_MAX)
      case None => None
      case Some(minutes) =>
        match ParseSecondsField(parts[1])
        case None => None
        case Some(ms) => Some(StampValue(minutes, ms))
  }

  /** Minutes and milliseconds combined as the source adds them in u64. */
  function StampValue(minutes: nat, ms: nat): (r: nat)
    ensures r < U64_MOD
    ensures minutes * 60000 + ms < U64_MOD ==> r == minutes * 60000 + ms
  {
    WrapU64(minutes * 60000 + ms)
  }

  /** A digit fraction is scaled by ten exactly when it has two digits. */
  lemma FractionDigits(f: string)
    requires |f| > 0 && AllDigits(f) && DigitsValue(f) <= U64_MAX
    ensures ParseFraction(f) == Some(if |f| == 2 then DigitsValue(f) * 10 else DigitsValue(f))
  {
    ParseUintDigits(f, U64_MAX);
  }

  /** A stamp without exactly one ':' is rejected. */
  lemma ParseTimestampNeedsOneColon(ts: string)
    requires CountChar(ts, ':') != 1
    ensures ParseTimestamp(ts).None?
  {
    SplitCharCount(ts, ':');
  }

  /** A seconds field split at its only '.' reads both sides. */
  lemma SecondsFieldSplit(field: string, a: string, b: string, x: nat, y: nat)
    requires SplitChar(field, '.') == [a, b]
    requires ParseUint(a, U64_MAX) == Some(x) && ParseFraction(b) == Some(y)
    ensures ParseSecondsField(field) == Some(x * 1000 + y)
  {
    var parts := SplitChar(field, '.');
    assert |parts| == 2 && parts[0] == a && parts[1] == b;
  }

  /** A stamp split at its only ':' reads the minutes and the seconds
      field. */
  lemma TimestampSplit(ts: string, a: string, b: string, x: nat, y: nat)
    requires SplitChar(ts, ':') == [a, b]
    requires ParseUint(a, U64_MAX) == Some(x) && ParseSecondsField(b) == Some(y)
    ensures ParseTimestamp(ts) == Some(StampValue(x, y))
  {
    var parts := SplitChar(ts, ':');
    assert |parts| == 2 && parts[0] == a && parts[1] == b;
  }

  /** A stamp whose ':' split gives minutes and a seconds field, and whose
      seconds field's '.' split gives seconds and a fraction, evaluates to
      m·60000 + (s·1000 + fraction), wrapped to a u64. */
  lemma TimestampOfPieces(ts: string, rest: string, m: string, s: string, f: string,
                          a: nat, b: nat, c: nat)
    requires SplitChar(ts, ':') == [m, rest] && SplitChar(rest, '.') == [s, f]
    requires ParseUint(m, U64_MAX) == Some(a) && ParseUint(s, U64_MAX) == Some(b)
    requires ParseFraction(f) == Some(c)
    ensures ParseTimestamp(ts) == Some(StampValue(a, b * 1000 + c))
  {
    SecondsFieldSplit(rest, s, f, b, c);
    TimestampSplit(ts, m, rest, a, b * 1000 + c);
  }

  /** How "m:s.f" splits when its pieces hold no stray delimiters. */
  lemma StampSplits(m: string, s: string, f: string)
    requires ':' !in m && ':' !in s && ':' !in f && '.' !in s && '.' !in f
    ensures SplitChar(m + [':'] + (s + ['.'] + f), ':') == [m, s + ['.'] + f]
    ensures SplitChar(s + ['.'] + f, '.') == [s, f]
  {
    SplitCharTwo(m, ':', s + ['.'] + f);
    SplitCharTwo(s, '.', f);
  }

  /** The stamp "m:s.f" evaluates to minutes, seconds and the fraction
      whenever each piece parses on its own and none holds a stray ':' or
      '.'. */
  lemma ParseTimestampParts(m: string, s: string, f: string, a: nat, b: nat, c: nat)
    requires ':' !in m && ':' !in s && ':' !in f && '.' !in s && '.' !in f
    requires ParseUint(m, U64_MAX) == Some(a) && ParseUint(s, U64_MAX) == Some(b)
    requires ParseFraction(f) == Some(c)
    ensures ParseTimestamp(m + [':'] + (s + ['.'] + f)) == Some(StampValue(a, b * 1000 + c))
  {
    StampSplits(m, s, f);
    TimestampOfPieces(m + [':'] + (s + ['.'] + f), s + ['.'] + f, m, s, f, a, b, c);
  }

  /** `parse_lrc_content` for one line: it must start with '[' and contain
      ']'; the stamp between the '[' and the first ']' must parse. */
  function ParseLrcLine(line: string): (r: Option<LyricLine>)
    ensures r.Some? ==> |line| > 0 && line[0] == '[' && ']' in line
    ensures r.Some? ==> IsTrimmed(r.value.text) && r.value.timestampMs < U64_MOD
  {
    match IndexOf(line, ']')
    case None => None
    case Some(idx) =>
      if line[0] != '[' then None
      else StampedLine(line[1..idx], line[idx + 1..])
  }

  /** A stamp and the text after it: the text is trimmed. */
  function StampedLine(stamp: string, rest: string): (r: Option<LyricLine>)
    ensures r.Some? <==> ParseTimestamp(stamp).Some?
    ensures r.Some? ==> r.value == LyricLine(ParseTimestamp(stamp).value, Trim(rest))
  {
    match ParseTimestamp(stamp)
    case None => None
    case Some(ms) => Some(LyricLine(ms, Trim(rest)))
  }

  /** `parse_lrc_content`: the parsed lines of `str::lines`, in order. */
  function ParseLrcContent(content: string): (r: seq<LyricLine>)
    ensures |r| <= |Lines(content)|
  {
    Lists.FilterMap(ParseLrcLine, Lines(content))
  }

  /** Every entry comes from an input line that parses to it, and every
      line that parses is kept. */
  lemma ParseLrcContentFaithful(content: string, k: nat, j: nat)
    ensures k < |ParseLrcContent(content)| ==>
      exists i :: 0 <= i < |Lines(content)| && ParseLrcLine(Lines(content)[i]) == Some(ParseLrcContent(content)[k])
    ensures j < |Lines(content)| && ParseLrcLine(Lines(content)[j]).Some? ==>
      ParseLrcLine(Lines(content)[j]).value in ParseLrcContent(content)
  {
    if k < |ParseLrcContent(content)| {
      Lists.FilterMapFromInput(ParseLrcLine, Lines(content), k);
    }
    if j < |Lines(content)| && ParseLrcLine(Lines(content)[j]).Some? {
      Lists.FilterMapKeeps(ParseLrcLine, Lines(content), j);
    }
  }

  /** Entries keep the order of their lines: entries `k1 < k2` come from
      lines `i1 < i2` that parse to them. */
  lemma ParseLrcContentInOrder(content: string, k1: nat, k2: nat)
    requires k1 < k2 < |ParseLrcContent(content)|
    ensures exists i1, i2 ::
              && 0 <= i1 < i2 < |Lines(content)|
              && ParseLrcLine(Lines(content)[i1]) == Some(ParseLrcContent(content)[k1])
              && ParseLrcLine(Lines(content)[i2]) == Some(ParseLrcContent(content)[k2])
  {
    Lists.FilterMapOrder(ParseLrcLine, Lines(content), k1, k2);
  }

  /** A bracketed stamp followed by text: the line parses as the stamp does. */
  lemma BracketedLine(stamp: string, text: string)
    requires ']' !in stamp
    ensures ParseLrcLine("[" + stamp + "]" + text) == StampedLine(stamp, text)
  {
    var line := "[" + stamp + "]" + text;
    var idx := 1 + |stamp|;
    assert line[idx] == ']';
    assert line[..idx] == "[" + stamp;
    assert line[1..idx] == stamp;
    assert line[idx + 1..] == text;
    ParseLrcLineAt(line, idx);
  }

  /** A line that opens with '[' and first closes at `idx` parses as the
      stamp between them and the text after. */
  lemma ParseLrcLineAt(line: string, idx: nat)
    requires idx < |line| && line[idx] == ']' && ']' !in line[..idx] && line[0] == '['
    ensures ParseLrcLine(line) == StampedLine(line[1..idx], line[idx + 1..])
  {
    assert IndexOf(line, ']') == Some(idx);
  }

  /** The canonical LRC stamp text "m:ss.cc" of a millisecond time. */
  function StampText(ms: nat): string {
    NatToString(ms / 60000) + [':'] + StampSeconds(ms)
  }

  /** The "ss.cc" half of the canonical stamp. */
  function StampSeconds(ms: nat): string {
    Pad2(ms % 60000 / 1000) + ['.'] + Pad2(ms % 60000 % 1000 / 10)
  }

  /** A line `parse_lrc_content` can reproduce exactly: a stamp on a
      centisecond boundary that fits a u64, and trimmed single-line text. */
  predicate Representable(l: LyricLine) {
    l.timestampMs % 10 == 0 && l.timestampMs < U64_MOD && IsTrimmed(l.text) && '\n' !in l.text
  }

  function FormatLine(l: LyricLine): string {
    "[" + StampText(l.timestampMs) + "]" + l.text
  }

  /** LRC text with one line per entry, each ended by '\n'. */
  function FormatLrc(lines: seq<LyricLine>): string {
    if lines == [] then [] else FormatLine(lines[0]) + "\n" + FormatLrc(lines[1..])
  }

  lemma StampArithmetic(ms: nat)
    requires ms % 10 == 0
    ensures ms == ms / 60000 * 60000 + ms % 60000 / 1000 * 1000 + ms % 60000 % 1000 / 10 * 10
  {
    var q := ms / 60000;
    var rem := ms % 60000;
    var sec := rem / 1000;
    var low := rem % 1000;
    assert ms == q * 60000 + rem;
    assert rem == sec * 1000 + low;
    var k := q * 6000 + sec * 100;
    assert low == ms - 10 * k;
    TensKeepRemainder(ms, k);
    assert low == low / 10 * 10;
  }

  /** Taking away a multiple of ten keeps a multiple of ten. */
  lemma TensKeepRemainder(x: int, k: int)
    requires x % 10 == 0
    ensures (x - 10 * k) % 10 == 0
  {
    assert x == x / 10 * 10;
    assert x - 10 * k == (x / 10 - k) * 10;
  }

  /** The canonical stamp text contains only digits, ':' and '.'. */
  lemma StampTextShape(ms: nat)
    ensures ']' !in StampText(ms) && '\n' !in StampText(ms)
  {
    var m := NatToString(ms / 60000);
    var s := Pad2(ms % 60000 / 1000);
    var f := Pad2(ms % 60000 % 1000 / 10);
    DigitsExclude(m, ']');
    DigitsExclude(s, ']');
    DigitsExclude(f, ']');
    DigitsExclude(m, '\n');
    DigitsExclude(s, '\n');
    DigitsExclude(f, '\n');
  }

  /** Minutes, two-digit seconds and two-digit centiseconds written as
      "m:ss.cc" parse back to their sum in milliseconds. */
  lemma StampPiecesParse(a: nat, sec: nat, cs: nat)
    requires a <= U64_MAX && sec < 100 && cs < 100
    ensures ParseTimestamp(NatToString(a) + [':'] + (Pad2(sec) + ['.'] + Pad2(cs)))
      == Some(StampValue(a, sec * 1000 + cs * 10))
  {
    ParseUintRoundTrip(a, U64_MAX);
    FractionOfPad2(cs);
    DigitStampParses(NatToString(a), Pad2(sec), Pad2(cs), a, sec, cs * 10);
  }

  /** The same for any digit strings: minutes, then two-digit seconds and
      a fraction worth `c` milliseconds. */
  lemma DigitStampParses(m: string, s: string, f: string, a: nat, b: nat, c: nat)
    requires AllDigits(m) && AllDigits(s) && AllDigits(f) && |s| == 2
    requires ParseUint(m, U64_MAX) == Some(a) && DigitsValue(s) == b && ParseFraction(f) == Some(c)
    ensures ParseTimestamp(m + [':'] + (s + ['.'] + f)) == Some(StampValue(a, b * 1000 + c))
  {
    assert ':' !in m && ':' !in s && ':' !in f && '.' !in s && '.' !in f by {
      DigitsExclude(m, ':');
      DigitsExclude(s, ':');
      DigitsExclude(f, ':');
      DigitsExclude(s, '.');
      DigitsExclude(f, '.');
    }
    assert ParseUint(s, U64_MAX) == Some(b) by {
      TwoDigitsBelow100(s);
      ParseUintDigits(s, U64_MAX);
    }
    ParseTimestampParts(m, s, f, a, b, c);
  }

  /** Two digits write a number below 100. */
  lemma TwoDigitsBelow100(s: string)
    requires AllDigits(s) && |s| == 2
    ensures DigitsValue(s) < 100
  {
    var hi := s[..1];
    assert hi[..0] == [];
    assert DigitsValue(hi) == DigitValue(s[0]) < 10;
    assert DigitsValue(s) == DigitsValue(hi) * 10 + DigitValue(s[1]);
  }

  /** The canonical stamp parses back to the time it was made from. */
  lemma StampTextParses(ms: nat)
    requires ms % 10 == 0 && ms < U64_MOD
    ensures ParseTimestamp(StampText(ms)) == Some(ms)
  {
    var a := ms / 60000;
    var sec := ms % 60000 / 1000;
    var cs := ms % 60000 % 1000 / 10;
    StampArithmetic(ms);
    assert a * 60000 + sec * 1000 + cs * 10 == ms;
    assert sec < 100 && cs < 100;
    StampPiecesParse(a, sec, cs);
    assert StampText(ms) == NatToString(a) + [':'] + (Pad2(sec) + ['.'] + Pad2(cs));
  }

  /** A two-digit fraction counts centiseconds. */
  lemma FractionOfPad2(c: nat)
    requires c < 100
    ensures ParseFraction(Pad2(c)) == Some(c * 10)
  {
    FractionDigits(Pad2(c));
  }

  /** One formatted line parses back to the entry it was made from. */
  lemma ParseFormattedLine(l: LyricLine)
    requires Representable(l)
    ensures ParseLrcLine(FormatLine(l)) == Some(l)
  {
    StampTextShape(l.timestampMs);
    BracketedLine(StampText(l.timestampMs), l.text);
    StampTextParses(l.timestampMs);
    TrimOfTrimmed(l.text);
  }

  /** A formatted line has no '\n' and does not end in '\r', so
      `str::lines` hands it back unchanged. */
  lemma FormattedLineShape(l: LyricLine)
    requires Representable(l)
    ensures '\n' !in FormatLine(l)
    ensures var x := FormatLine(l); x[|x| - 1] != '\r'
  {
    StampTextShape(l.timestampMs);
    var x := FormatLine(l);
    if l.text == [] {
      assert x[|x| - 1] == ']';
    } else {
      assert x[|x| - 1] == l.text[|l.text| - 1];
    }
  }

  /** A line that `str::lines` keeps whole, followed by more content. */
  lemma ParseLrcContentCons(a: string, b: string)
    requires '\n' !in a && a != [] && a[|a| - 1] != '\r'
    ensures ParseLrcContent(a + "\n" + b) ==
      (if ParseLrcLine(a).Some? then [ParseLrcLine(a).value] else []) + ParseLrcContent(b)
  {
    LinesCons(a, b);
    Lists.FilterMapCons(ParseLrcLine, a, Lines(b));
  }

  /** One formatted line in front of content that parses to `rest`. */
  lemma RoundTripStep(l: LyricLine, rest: seq<LyricLine>, b: string)
    requires Representable(l) && ParseLrcContent(b) == rest
    ensures ParseLrcContent(FormatLine(l) + "\n" + b) == [l] + rest
  {
    FormattedLineShape(l);
    ParseFormattedLine(l);
    ParseLrcContentCons(FormatLine(l), b);
  }

  /** Formatting entries as LRC text and parsing the text gives the entries
      back. */
  lemma {:induction false} LrcRoundTrip(lines: seq<LyricLine>)
    requires forall i :: 0 <= i < |lines| ==> Representable(lines[i])
    ensures ParseLrcContent(FormatLrc(lines)) == lines
  {
    if lines != [] {
      LrcRoundTrip(lines[1..]);
      RoundTripStep(lines[0], lines[1..], FormatLrc(lines[1..]));
      assert lines == [lines[0]] + lines[1..];
    }
  }

  /** Bracket stripping in `clean_title`: '(' and '[' open, ')' and ']'
      close, the bracket characters themselves are dropped, and text inside
      is dropped. */
  function StripBrackets(s: string, inBracket: bool): (r: string)
    ensures |r| <= |s|
    ensures '(' !in r && ')' !in r && '[' !in r && ']' !in r
  {
    if s == [] then []
    else if s[0] == '(' || s[0] == '[' then StripBrackets(s[1..], true)
    else if s[0] == ')' || s[0] == ']' then StripBrackets(s[1..], false)
    else if !inBracket then [s[0]] + StripBrackets(s[1..], false)
    else StripBrackets(s[1..], true)
  }

  /** Outside brackets, text without bracket characters is kept whole. */
  lemma {:induction false} StripBracketsKeepsPlain(s: string)
    requires '(' !in s && ')' !in s && '[' !in s && ']' !in s
    ensures StripBrackets(s, false) == s
  {
    if s != [] {
      assert s[0] in s;
      assert forall c :: c in s[1..] ==> c in s;
      StripBracketsKeepsPlain(s[1..]);
      assert s == [s[0]] + s[1..];
    }
  }

  /** The text `clean_title` keeps: before "feat.", then before "(feat",
      then before "with". It is a prefix of the title holding none of the
      three, and the whole title when the title holds none of them. */
  function CutTitle(t: string): (r: string)
    ensures StartsWith(t, r)
    ensures Free(r, "feat.") && Free(r, "(feat") && Free(r, "with")
    ensures Free(t, "feat.") && Free(t, "(feat") && Free(t, "with") ==> r == t
  {
    var a := Before(t, "feat.");
    var b := Before(a, "(feat");
    BeforeIsFree(t, "feat.");
    BeforeIsFree(a, "(feat");
    BeforeIsFree(b, "with");
    FreeInfix(a, "feat.", b, 0);
    FreeInfix(a, "feat.", Before(b, "with"), 0);
    FreeInfix(b, "(feat", Before(b, "with"), 0);
    Before(b, "with")
  }

  /** The title holds none of the phrases `clean_title` deletes. */
  predicate JunkFree(t: string) {
    && Free(t, "remastered") && Free(t, "remaster") && Free(t, "studio version")
    && Free(t, "stereo mix") && Free(t, "mono mix") && Free(t, "single version")
    && Free(t, "original mix")
  }

  /** The phrases `clean_title` deletes, in the order it deletes them. The
      title comes back unchanged exactly when it holds none of them. */
  function RemoveJunk(t: string): (r: string)
    ensures |r| <= |t|
    ensures r == t <==> JunkFree(t)
  {
    RemoveAll(RemoveAll(RemoveAll(RemoveAll(RemoveAll(RemoveAll(RemoveAll(t,
      "remastered"), "remaster"), "studio version"), "stereo mix"), "mono mix"),
      "single version"), "original mix")
  }

  /** `clean_title`: lowercase, cut before "feat.", "(feat" and "with",
      delete the junk phrases, drop bracketed text, trim. */
  function CleanTitle(title: string): (r: string)
    ensures IsTrimmed(r)
    ensures '(' !in r && ')' !in r && '[' !in r && ']' !in r
  {
    var clean := StripBrackets(RemoveJunk(CutTitle(Lower(title))), false);
    InfixExcludes(clean, Trim(clean), TrimOffset(clean), '(');
    InfixExcludes(clean, Trim(clean), TrimOffset(clean), ')');
    InfixExcludes(clean, Trim(clean), TrimOffset(clean), '[');
    InfixExcludes(clean, Trim(clean), TrimOffset(clean), ']');
    Trim(clean)
  }

  /** A free string has no occurrence of a one-character pattern. */
  lemma FreeCharAbsent(s: string, c: char)
    requires Free(s, [c])
    ensures c !in s
  {
    if c in s {
      var i :| 0 <= i < |s| && s[i] == c;
      assert s[i..i + 1] == [c];
      assert OccursAt(s, [c], i);
    }
  }

  /** A string with no '(' has no "(feat". */
  lemma FreeOfParen(s: string)
    requires '(' !in s
    ensures Free(s, "(feat")
  {
    forall j | 0 <= j <= |s| ensures !OccursAt(s, "(feat", j) {
      if j + 5 <= |s| {
        assert s[j..j + 5][0] == s[j];
      }
    }
  }

  /** A title that is already lowercase, trimmed, free of brackets and free
      of every phrase and delimiter `clean_title` looks for comes back
      unchanged. */
  lemma CleanTitleFixesCleanInput(t: string)
    requires forall i :: 0 <= i < |t| ==> !('A' <= t[i] <= 'Z')
    requires IsTrimmed(t)
    requires '(' !in t && ')' !in t && '[' !in t && ']' !in t
    requires Free(t, "feat.") && Free(t, "with")
    requires Free(t, "remastered") && Free(t, "remaster") && Free(t, "studio version")
    requires Free(t, "stereo mix") && Free(t, "mono mix") && Free(t, "single version")
    requires Free(t, "original mix")
    ensures CleanTitle(t) == t
  {
    LowerOfLowercase(t);
    FreeOfParen(t);
    assert CutTitle(t) == t;
    assert RemoveJunk(t) == t;
    StripBracketsKeepsPlain(t);
    TrimOfTrimmed(t);
  }

  /** Cut at the first match of `p`: the result is free of `p`. */
  lemma BeforeIsFree(s: string, p: string)
    requires |p| > 0
    ensures Free(Before(s, p), p)
  {
    var r := Before(s, p);
    forall j | 0 <= j <= |r| ensures !OccursAt(r, p, j) {
      if OccursAt(r, p, j) {
        assert r == s[..|r|];
        assert s[j..j + |p|] == r[j..j + |p|];
        assert OccursAt(s, p, j);
      }
    }
  }

  /** Taking a slice never creates a match. */
  lemma FreeInfix(s: string, p: string, r: string, k: int)
    requires Free(s, p) && InfixAt(s, r, k)
    ensures Free(r, p)
  {
    forall j | 0 <= j <= |r| ensures !OccursAt(r, p, j) {
      if OccursAt(r, p, j) {
        var t := s[k..k + |r|];
        var u := t[j..j + |p|];
        var v := s[k + j..k + j + |p|];
        forall i | 0 <= i < |p| ensures u[i] == v[i] {
          assert u[i] == t[j + i];
        }
        assert u == v;
        assert OccursAt(s, p, k + j);
      }
    }
  }

  /** A character a separator can start with. */
  predicate Stop(c: char) {
    c == ',' || c == '&' || c == ' '
  }

  /** The shape every artist separator has: it starts with a stop
      character and holds none after that, so two separators can never
      overlap without one starting where the other does. */
  predicate SeparatorShape(p: string) {
    |p| > 0 && Stop(p[0]) && forall o :: 1 <= o < |p| ==> !Stop(p[o])
  }

  lemma SeparatorsShaped()
    ensures SeparatorShape(",") && SeparatorShape("&")
    ensures SeparatorShape(" feat.") && SeparatorShape(" ft.") && SeparatorShape(" featuring")
  {
  }

  /** One of the five separators starts at `j` in `t`. */
  predicate SepAt(t: string, j: nat) {
    || OccursAt(t, ",", j) || OccursAt(t, "&", j) || OccursAt(t, " feat.", j)
    || OccursAt(t, " ft.", j) || OccursAt(t, " featuring", j)
  }

  /** The prefix `x` of `t` is all of `t` or stops at a stop character. */
  predicate EndsAtStop(t: string, x: string) {
    StartsWith(t, x) && (|x| == |t| || Stop(t[|x|]))
  }

  /** No match of `p` starts before `n` in `t`. */
  predicate NoneBefore(t: string, p: string, n: nat) {
    forall j :: 0 <= j < n ==> !OccursAt(t, p, j)
  }

  /** One cut of a prefix `x` of `t` at a separator: the cut stops at a
      stop character, at a match of `p` unless nothing was cut, and no
      match of `p` in the whole of `t` starts before it. */
  lemma CutStep(t: string, x: string, p: string)
    requires EndsAtStop(t, x) && SeparatorShape(p)
    ensures EndsAtStop(t, Before(x, p))
    ensures NoneBefore(t, p, |Before(x, p)|)
    ensures Before(x, p) == x || OccursAt(t, p, |Before(x, p)|)
  {
    var y := Before(x, p);
    assert x == t[..|x|];
    forall j | 0 <= j < |y| ensures !OccursAt(t, p, j) {
      if OccursAt(t, p, j) {
        MatchWithinPrefix(t, x, p, j);
        assert x[j..j + |p|] == t[j..j + |p|];
        assert OccursAt(x, p, j);
      }
    }
    if y != x {
      OccursInExtension(t, x, p, Find(x, p).value);
    }
  }

  /** A separator match of `t` starting inside a prefix `x` that ends at a
      stop character lies wholly inside `x`: the stop character cannot sit
      past the first character of a separator. */
  lemma MatchWithinPrefix(t: string, x: string, p: string, j: nat)
    requires EndsAtStop(t, x) && SeparatorShape(p)
    requires j < |x| && OccursAt(t, p, j)
    ensures j + |p| <= |x|
  {
    assert forall o :: 0 <= o < |p| ==> t[j + o] == t[j..j + |p|][o] == p[o];
  }

  /** A match inside a prefix `x` of `t` is a match in `t` at the same place. */
  lemma OccursInExtension(t: string, x: string, p: string, i: nat)
    requires StartsWith(t, x) && OccursAt(x, p, i)
    ensures OccursAt(t, p, i)
  {
    forall q | 0 <= q < |p| ensures t[i..i + |p|][q] == p[q] {
      assert t[i + q] == x[i + q] == x[i..i + |p|][q];
    }
  }

  /** The text `clean_artist` keeps before trimming: cut before the first
      ",", "&", " feat.", " ft." and " featuring" in turn. The result ends
      where a separator starts, or at the end, and no separator starts
      earlier: it is the text before the first separator of any kind. */
  function PrimaryArtist(t: string): (r: string)
    ensures StartsWith(t, r)
    ensures Free(r, ",") && Free(r, "&") && Free(r, " feat.") && Free(r, " ft.") && Free(r, " featuring")
    ensures r == t || SepAt(t, |r|)
    ensures forall j :: 0 <= j < |r| ==> !SepAt(t, j)
  {
    var x1 := Before(t, ",");
    var x2 := Before(x1, "&");
    var x3 := Before(x2, " feat.");
    var x4 := Before(x3, " ft.");
    var x5 := Before(x4, " featuring");
    BeforeIsFree(t, ",");
    CutStaysFree(x1, "&", ",");
    CutStaysFree(x2, " feat.", ",");
    CutStaysFree(x3, " ft.", ",");
    CutStaysFree(x4, " featuring", ",");
    BeforeIsFree(x1, "&");
    CutStaysFree(x2, " feat.", "&");
    CutStaysFree(x3, " ft.", "&");
    CutStaysFree(x4, " featuring", "&");
    BeforeIsFree(x2, " feat.");
    CutStaysFree(x3, " ft.", " feat.");
    CutStaysFree(x4, " featuring", " feat.");
    BeforeIsFree(x3, " ft.");
    CutStaysFree(x4, " featuring", " ft.");
    BeforeIsFree(x4, " featuring");
    PrefixTrans(t, x1, x2);
    PrefixTrans(t, x2, x3);
    PrefixTrans(t, x3, x4);
    PrefixTrans(t, x4, x5);
    FirstCut(t);
    x5
  }

  /** The five cuts in turn stop at the first separator of any kind. */
  lemma FirstCut(t: string)
    ensures var r := Before(Before(Before(Before(Before(t, ","), "&"), " feat."), " ft."), " featuring");
      && (r == t || SepAt(t, |r|))
      && forall j :: 0 <= j < |r| ==> !SepAt(t, j)
  {
    SeparatorsShaped();
    var x1 := Before(t, ",");
    var x2 := Before(x1, "&");
    var x3 := Before(x2, " feat.");
    var x4 := Before(x3, " ft.");
    var x5 := Before(x4, " featuring");
    assert EndsAtStop(t, t);
    CutStep(t, t, ",");
    CutStep(t, x1, "&");
    CutStep(t, x2, " feat.");
    CutStep(t, x3, " ft.");
    CutStep(t, x4, " featuring");
  }

  /** Cutting a string that is free of `q` leaves it free of `q`. */
  lemma CutStaysFree(s: string, p: string, q: string)
    requires |p| > 0 && Free(s, q)
    ensures Free(Before(s, p), q)
  {
    var r := Before(s, p);
    assert s[0..|r|] == r;
    FreeInfix(s, q, r, 0);
  }

  /** A prefix of a prefix is a prefix. */
  lemma PrefixTrans(a: string, b: string, c: string)
    requires StartsWith(a, b) && StartsWith(b, c)
    ensures StartsWith(a, c)
  {
    assert a[..|c|] == a[..|b|][..|c|];
  }

  /** Trimming never creates a match. */
  lemma TrimFree(s: string, p: string)
    requires Free(s, p)
    ensures Free(Trim(s), p)
  {
    FreeInfix(s, p, Trim(s), TrimOffset(s));
  }

  /** A slice of a prefix is the same slice of the whole. */
  lemma InfixOfPrefix(t: string, p: string, r: string, k: int)
    requires StartsWith(t, p) && InfixAt(p, r, k)
    ensures InfixAt(t, r, k)
  {
    calc {
      t[k..k + |r|];
      t[..|p|][k..k + |r|];
      p[k..k + |r|];
    }
  }

  /** The trimmed text of a prefix sits at the same place in the whole. */
  lemma TrimOfPrefix(t: string, p: string)
    requires StartsWith(t, p)
    ensures InfixAt(t, Trim(p), TrimOffset(p))
  {
    InfixOfPrefix(t, p, Trim(p), TrimOffset(p));
  }

  /** `clean_artist`: lowercase, keep the primary artist, trim. The kept
      text is the lowercased input up to its first separator of any kind. */
  function CleanArtist(artist: string): (r: string)
    ensures var t := Lower(artist); var n := |PrimaryArtist(t)|;
      && n <= |t| && (n == |t| || SepAt(t, n))
      && (forall j :: 0 <= j < n ==> !SepAt(t, j))
      && r == Trim(t[..n])
    ensures IsTrimmed(r)
    ensures ',' !in r && '&' !in r
    ensures InfixAt(Lower(artist), r, TrimOffset(PrimaryArtist(Lower(artist))))
    ensures Free(r, " feat.") && Free(r, " ft.") && Free(r, " featuring")
  {
    var primary := PrimaryArtist(Lower(artist));
    TrimFree(primary, ",");
    TrimFree(primary, "&");
    TrimFree(primary, " feat.");
    TrimFree(primary, " ft.");
    TrimFree(primary, " featuring");
    FreeCharAbsent(Trim(primary), ',');
    FreeCharAbsent(Trim(primary), '&');
    TrimOfPrefix(Lower(artist), primary);
    Trim(primary)
  }

  /** Cleaning an already cleaned artist changes nothing. */
  lemma CleanArtistIdempotent(artist: string)
    ensures CleanArtist(CleanArtist(artist)) == CleanArtist(artist)
  {
    var r := CleanArtist(artist);
    LowercaseInfix(artist, r, TrimOffset(PrimaryArtist(Lower(artist))));
    LowerOfLowercase(r);
    FreeCharPattern(r, ',');
    FreeCharPattern(r, '&');
    assert PrimaryArtist(r) == r;
    TrimOfTrimmed(r);
  }

  /** A character that does not occur is a pattern that does not occur. */
  lemma FreeCharPattern(s: string, c: char)
    requires c !in s
    ensures Free(s, [c])
  {
    forall j | 0 <= j <= |s| ensures !OccursAt(s, [c], j) {
      if j < |s| {
        assert s[j..j + 1][0] == s[j];
      }
    }
  }

  /** A slice of a lowercased string holds no upper-case letter. */
  lemma LowercaseInfix(s: string, r: string, k: int)
    requires InfixAt(Lower(s), r, k)
    ensures forall i :: 0 <= i < |r| ==> !('A' <= r[i] <= 'Z')
  {
    forall i | 0 <= i < |r| ensures !('A' <= r[i] <= 'Z') {
      assert r[i] == Lower(s)[k + i];
    }
  }

  /** An lrclib response record. */
  datatype LrclibResponse = LrclibResponse(
    syncedLyrics: Option<string>, plainLyrics: Option<string>, instrumental: bool)

  datatype FetchResult = Found(lines: seq<LyricLine>) | Instrumental | NoLyrics

  /** `parse`: instrumental tracks win; otherwise synced lyrics, else plain
      lyrics, are parsed, and an empty result means no lyrics. */
  function Parse(data: LrclibResponse): (r: FetchResult)
    ensures data.instrumental <==> r.Instrumental?
    ensures r.Found? ==> r.lines != []
    ensures !data.instrumental && data.syncedLyrics.Some? ==>
      r == (if ParseLrcContent(data.syncedLyrics.value) == [] then NoLyrics
            else Found(ParseLrcContent(data.syncedLyrics.value)))
    ensures !data.instrumental && data.syncedLyrics.None? && data.plainLyrics.None? ==> r == NoLyrics
  {
    if data.instrumental then Instrumental
    else
      var raw := if data.syncedLyrics.Some? then data.syncedLyrics else data.plainLyrics;
      match raw
      case None => NoLyrics
      case Some(text) =>
        var lines := ParseLrcContent(text);
        if lines == [] then NoLyrics else Found(lines)
  }

  /** Plain lyrics are consulted only when synced lyrics are absent. */
  lemma ParseFallsBackToPlain(synced: Option<string>, plain: string)
    ensures Parse(LrclibResponse(None, Some(plain), false)) ==
      (if ParseLrcContent(plain) == [] then NoLyrics else Found(ParseLrcContent(plain)))
    ensures Parse(LrclibResponse(synced, Some(plain), true)) == Instrumental
  {
  }
}
