/** The Rust string operations the parsers rely on, stated over `seq<char>`.
    Every delimiter the program splits at is an ASCII character, so indexing by
    character here agrees with Rust's byte indexing at those delimiters. */
module Text {
  import opened Wrappers

  /** Unicode White_Space, the set `char::is_whitespace` and so `str::trim` strip:
      U+0009..U+000D, U+0020, U+0085, U+00A0, U+1680, U+2000..U+200A, U+2028,
      U+2029, U+202F, U+205F and U+3000. */
  predicate IsWhitespace(c: char) {
    ('\U{0009}' <= c <= '\U{000D}') || c == ' ' || c == '\U{0085}' || c == '\U{00A0}'
    || c == '\U{1680}' || ('\U{2000}' <= c <= '\U{200A}') || c == '\U{2028}' || c == '\U{2029}'
    || c == '\U{202F}' || c == '\U{205F}' || c == '\U{3000}'
  }

  /** No leading and no trailing whitespace. */
  predicate IsTrimmed(s: string) {
    s == [] || (!IsWhitespace(s[0]) && !IsWhitespace(s[|s| - 1]))
  }

  /** `str::trim_start`. */
  function TrimStart(s: string): (r: string)
    ensures |r| <= |s| && r == s[|s| - |r|..]
    ensures r == [] || !IsWhitespace(r[0])
    ensures forall i :: 0 <= i < |s| - |r| ==> IsWhitespace(s[i])
  {
    if s == [] || !IsWhitespace(s[0]) then s else TrimStart(s[1..])
  }

  /** `str::trim_end`. */
  function TrimEnd(s: string): (r: string)
    ensures |r| <= |s| && r == s[..|r|]
    ensures r == [] || !IsWhitespace(r[|r| - 1])
    ensures forall i :: |r| <= i < |s| ==> IsWhitespace(s[i])
  {
    if s == [] || !IsWhitespace(s[|s| - 1]) then s else TrimEnd(s[..|s| - 1])
  }

  /** Every character is whitespace. */
  predicate Blank(s: string) {
    forall i :: 0 <= i < |s| ==> IsWhitespace(s[i])
  }

  /** `str::trim`: the longest infix with no whitespace at either end;
      nothing is left exactly when nothing but whitespace was there. */
  function Trim(s: string): (r: string)
    ensures IsTrimmed(r)
    ensures |r| <= |s|
    ensures InfixAt(s, r, TrimOffset(s))
    ensures r == [] <==> Blank(s)
  {
    TrimEmpty(s);
    TrimEnd(TrimStart(s))
  }

  /** Both trims leave nothing exactly when the text is blank. */
  lemma TrimEmpty(s: string)
    ensures TrimEnd(TrimStart(s)) == [] <==> Blank(s)
  {
    var t := TrimStart(s);
    var off := |s| - |t|;
    assert t != [] ==> t[0] == s[off];
    assert TrimEnd(t) == [] ==> t == [];
  }

  /** Trimming cuts whitespace only: everything before and after the kept
      infix is whitespace. */
  lemma TrimCutsWhitespace(s: string)
    ensures forall i :: 0 <= i < TrimOffset(s) ==> IsWhitespace(s[i])
    ensures forall i :: TrimOffset(s) + |Trim(s)| <= i < |s| ==> IsWhitespace(s[i])
  {
    var t := TrimStart(s);
    assert forall i :: TrimOffset(s) <= i < |s| ==> s[i] == t[i - TrimOffset(s)];
  }

  /** Where the trimmed text starts inside the original. */
  function TrimOffset(s: string): nat {
    |s| - |TrimStart(s)|
  }

  /** A character absent from `s` is absent from every slice of it. */
  lemma InfixExcludes(s: string, r: string, k: int, c: char)
    requires InfixAt(s, r, k) && c !in s
    ensures c !in r
  {
  }

  /** `r` is the slice of `s` starting at `k`. */
  predicate InfixAt(s: string, r: string, k: int) {
    0 <= k && k + |r| <= |s| && s[k..k + |r|] == r
  }

  lemma TrimOfTrimmed(s: string)
    requires IsTrimmed(s)
    ensures Trim(s) == s
  {
  }

  predicate StartsWith(s: string, p: string) {
    |p| <= |s| && s[..|p|] == p
  }

  /** Index of the first occurrence of `c` (Rust `find` with a char pattern). */
  function IndexOf(s: string, c: char): (r: Option<nat>)
    ensures r.None? <==> c !in s
    ensures r.Some? ==> r.value < |s| && s[r.value] == c && c !in s[..r.value]
  {
    if s == [] then None
    else if s[0] == c then Some(0)
    else
      match IndexOf(s[1..], c)
      case None => None
      case Some(i) => assert s[1..][..i] == s[1..i + 1]; Some(i + 1)
  }

  /** `p` occurs in `s` at position `i`. */
  predicate OccursAt(s: string, p: string, i: nat) {
    i + |p| <= |s| && s[i..i + |p|] == p
  }

  /** Index of the first occurrence of the non-empty pattern `p`
      (Rust `find` with a string pattern). */
  function Find(s: string, p: string): (r: Option<nat>)
    requires |p| > 0
    ensures r.Some? ==> OccursAt(s, p, r.value) && forall j :: 0 <= j < r.value ==> !OccursAt(s, p, j)
    ensures r.None? ==> forall j :: 0 <= j <= |s| ==> !OccursAt(s, p, j)
    decreases |s|
  {
    if |s| < |p| then None
    else if s[..|p|] == p then Some(0)
    else
      match Find(s[1..], p)
      case None =>
        assert forall j :: 1 <= j <= |s| ==> (OccursAt(s, p, j) <==> OccursAt(s[1..], p, j - 1));
        None
      case Some(i) =>
        assert forall j :: 1 <= j <= |s| ==> (OccursAt(s, p, j) <==> OccursAt(s[1..], p, j - 1));
        Some(i + 1)
  }

  /** `s.split(c)`: the pieces between occurrences of `c`; never empty. */
  function SplitChar(s: string, c: char): (r: seq<string>)
    ensures |r| >= 1
    ensures forall i :: 0 <= i < |r| ==> c !in r[i]
    decreases |s|
  {
    match IndexOf(s, c)
    case None => [s]
    case Some(i) => [s[..i]] + SplitChar(s[i + 1..], c)
  }

  lemma SplitCharNoDelimiter(s: string, c: char)
    requires c !in s
    ensures SplitChar(s, c) == [s]
  {
  }

  lemma SplitCharCons(a: string, c: char, b: string)
    requires c !in a
    ensures SplitChar(a + [c] + b, c) == [a] + SplitChar(b, c)
  {
    var s := a + [c] + b;
    assert s[|a|] == c;
    assert s[..|a|] == a;
    assert c !in s[..|a|];
    assert IndexOf(s, c) == Some(|a|);
    assert s[|a| + 1..] == b;
  }

  /** Splitting at the only delimiter gives the two sides. */
  lemma SplitCharTwo(a: string, c: char, b: string)
    requires c !in a && c !in b
    ensures SplitChar(a + [c] + b, c) == [a, b]
  {
    SplitCharCons(a, c, b);
    SplitCharNoDelimiter(b, c);
  }

  /** Number of pieces `s.split(c)` yields is one more than the count of `c`. */
  function CountChar(s: string, c: char): nat {
    if s == [] then 0 else (if s[0] == c then 1 else 0) + CountChar(s[1..], c)
  }

  /** `s.split(c)` yields one piece more than there are occurrences of `c`. */
  lemma {:induction false} SplitCharCount(s: string, c: char)
    ensures |SplitChar(s, c)| == CountChar(s, c) + 1
    decreases |s|
  {
    match IndexOf(s, c)
    case None =>
      CountCharAbsent(s, c);
    case Some(i) =>
      CountCharSplit(s, c, i);
      SplitCharCount(s[i + 1..], c);
  }

  lemma {:induction false} CountCharAbsent(s: string, c: char)
    requires c !in s
    ensures CountChar(s, c) == 0
    decreases |s|
  {
    if s != [] {
      assert s[0] != c;
      CountCharAbsent(s[1..], c);
    }
  }

  /** Counting across the first occurrence at `i`. */
  lemma {:induction false} CountCharSplit(s: string, c: char, i: nat)
    requires i < |s| && s[i] == c && c !in s[..i]
    ensures CountChar(s, c) == 1 + CountChar(s[i + 1..], c)
    decreases i
  {
    if i > 0 {
      assert s[0] in s[..i];
      assert s[1..][..i - 1] == s[1..i];
      assert forall x :: x in s[1..i] ==> x in s[..i];
      CountCharSplit(s[1..], c, i - 1);
      assert s[1..][i..] == s[i + 1..];
    }
  }

  /** `s.split(p)` for a non-empty string pattern, matches taken left to right. */
  function SplitStr(s: string, p: string): (r: seq<string>)
    requires |p| > 0
    ensures |r| >= 1
    decreases |s|
  {
    match Find(s, p)
    case None => [s]
    case Some(i) => [s[..i]] + SplitStr(s[i + |p|..], p)
  }

  /** No match of `p` anywhere in `s`. */
  predicate Free(s: string, p: string) {
    forall j :: 0 <= j <= |s| ==> !OccursAt(s, p, j)
  }

  /** `s.replace(p, "")`: every left-to-right, non-overlapping match removed.
      The text comes back unchanged exactly when `p` does not occur in it,
      and otherwise loses at least one copy of `p`. */
  function RemoveAll(s: string, p: string): (r: string)
    requires |p| > 0
    ensures |r| <= |s|
    ensures r == s <==> Free(s, p)
    ensures !Free(s, p) ==> |r| + |p| <= |s|
    decreases |s|
  {
    match Find(s, p)
    case None => s
    case Some(i) => s[..i] + RemoveAll(s[i + |p|..], p)
  }

  /** `s.split(p).next().unwrap()`: the text before the first match. */
  function Before(s: string, p: string): (r: string)
    requires |p| > 0
    ensures StartsWith(s, r)
    ensures r == s <==> Free(s, p)
    ensures r != s ==> OccursAt(s, p, |r|)
    ensures forall j :: 0 <= j < |r| ==> !OccursAt(s, p, j)
  {
    match Find(s, p)
    case None => s
    case Some(i) => s[..i]
  }

  /** `s.trim_start_matches(p)` for a non-empty `p`: strips `p` repeatedly. */
  function TrimStartMatches(s: string, p: string): (r: string)
    requires |p| > 0
    ensures |r| <= |s| && r == s[|s| - |r|..]
    ensures !StartsWith(r, p)
    decreases |s|
  {
    if StartsWith(s, p) then TrimStartMatches(s[|p|..], p) else s
  }

  /** One line of `str::lines`: the trailing '\n' is removed and then one
      '\r' before it. */
  function StripLineEnd(l: string): string {
    if |l| > 0 && l[|l| - 1] == '\n' then
      var m := l[..|l| - 1];
      if |m| > 0 && m[|m| - 1] == '\r' then m[..|m| - 1] else m
    else l
  }

  /** `str::lines`: split after each '\n' (a final line without '\n' is kept,
      an empty remainder is not), then strip "\n" / "\r\n". */
  function Lines(s: string): (r: seq<string>)
    ensures forall i :: 0 <= i < |r| ==> '\n' !in r[i]
    ensures |r| <= |s|
    decreases |s|
  {
    if s == [] then []
    else
      match IndexOf(s, '\n')
      case None => [s]
      case Some(i) =>
        var m := s[..i];
        [if |m| > 0 && m[|m| - 1] == '\r' then m[..|m| - 1] else m] + Lines(s[i + 1..])
  }

  /** `lines()` yields one line per newline, plus one for a final line
      without a newline. */
  lemma {:induction false} LinesCount(s: string)
    ensures |Lines(s)| == CountChar(s, '\n') + (if s == [] || s[|s| - 1] == '\n' then 0 else 1)
    decreases |s|
  {
    if s != [] {
      match IndexOf(s, '\n')
      case None => CountCharAbsent(s, '\n');
      case Some(i) =>
        CountCharSplit(s, '\n', i);
        LinesCount(s[i + 1..]);
    }
  }

  lemma LinesSingle(l: string)
    requires l != [] && '\n' !in l
    ensures Lines(l) == [l]
  {
  }

  lemma LinesCons(a: string, b: string)
    requires '\n' !in a
    requires a == [] || a[|a| - 1] != '\r'
    ensures Lines(a + "\n" + b) == [a] + Lines(b)
  {
    var s := a + "\n" + b;
    assert s[|a|] == '\n';
    assert s[..|a|] == a;
    assert IndexOf(s, '\n') == Some(|a|);
    assert s[|a| + 1..] == b;
  }

  /** ASCII lowercase of one character (`char::to_ascii_lowercase`). */
  function LowerChar(c: char): (r: char)
    ensures !('A' <= r <= 'Z')
    ensures !('A' <= c <= 'Z') ==> r == c
  {
    if 'A' <= c <= 'Z' then (c as int + 32) as char else c
  }

  /** Lowercase of a string (the ASCII part of `str::to_lowercase`). */
  function Lower(s: string): (r: string)
    ensures |r| == |s|
    ensures forall i :: 0 <= i < |s| ==> r[i] == LowerChar(s[i])
  {
    if s == [] then [] else [LowerChar(s[0])] + Lower(s[1..])
  }

  /** Lowercasing a string with no upper-case letter changes nothing. */
  lemma LowerOfLowercase(s: string)
    requires forall i :: 0 <= i < |s| ==> !('A' <= s[i] <= 'Z')
    ensures Lower(s) == s
  {
  }

  /** `parts.join(sep)`. */
  function Join(parts: seq<string>, sep: string): string {
    if parts == [] then []
    else if |parts| == 1 then parts[0]
    else parts[0] + sep + Join(parts[1..], sep)
  }
}
