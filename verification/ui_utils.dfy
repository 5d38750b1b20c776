/** Width-limited text for the terminal UI (`truncate` in src/ui/utils.rs). */
module UiUtils {
  import opened Text

  const ELLIPSIS: char := '…'

  /** Keeps `s` when it has at most `max` characters; otherwise keeps the
      first `max - 1` characters (none when `max` is 0) and appends "…". */
  function Truncate(s: string, max: nat): (r: string)
    ensures |s| <= max ==> r == s
    ensures |s| > max ==> |r| == (if max == 0 then 1 else max)
    ensures |s| > max ==> r[|r| - 1] == ELLIPSIS && StartsWith(s, r[..|r| - 1])
    ensures |r| <= (if max == 0 then 1 else max) || r == s
  {
    if |s| > max then
      var keep := if max == 0 then 0 else max - 1;
      s[..keep] + [ELLIPSIS]
    else s
  }

  /** Truncating twice to the same width changes nothing the second time. */
  lemma TruncateIdempotent(s: string, max: nat)
    ensures Truncate(Truncate(s, max), max) == Truncate(s, max)
  {
  }

  /** A string that fits is never altered, and a string that does not fit
      always comes back with exactly the width of the column. */
  lemma TruncateFits(s: string, max: nat)
    requires max >= 1
    ensures |Truncate(s, max)| <= max
    ensures |Truncate(s, max)| == max || Truncate(s, max) == s
  {
  }
}
