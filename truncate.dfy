/**
 * `truncateString`: shortens a folder name for the log line, counting runes,
 * and marks the cut with "..." when there is room for it.
 */
module Truncate {

  const Ellipsis: string := "..."

  /** How many runes of `s` survive truncation to `maxLen`. */
  function Kept(n: nat, maxLen: nat): nat
  {
    if n <= maxLen then n else if maxLen <= 3 then maxLen else maxLen - 3
  }

  /**
   * Go panics on a negative slice bound (`runes[:maxLen]` with `maxLen < 0`),
   * so callers must pass `maxLen >= 0`.
   */
  function TruncateString(s: string, maxLen: int): (r: string)
    requires maxLen >= 0
    ensures |r| == if |s| <= maxLen then |s| else maxLen
    ensures r == s <==> |s| <= maxLen
    ensures r[..Kept(|s|, maxLen)] == s[..Kept(|s|, maxLen)]
    ensures |s| > maxLen && maxLen <= 3 ==> r == s[..maxLen]
    ensures |s| > maxLen && maxLen > 3 ==> r[maxLen - 3..] == Ellipsis
  {
    if |s| <= maxLen then s
    else if maxLen <= 3 then s[..maxLen]
    else s[..maxLen - 3] + Ellipsis
  }

  /** A truncated name is never longer than the budget. */
  lemma TruncateWithinBudget(s: string, maxLen: nat)
    ensures |TruncateString(s, maxLen)| <= maxLen
  {
  }

  /** Truncating twice to the same budget changes nothing the second time. */
  lemma TruncateIdempotent(s: string, maxLen: nat)
    ensures TruncateString(TruncateString(s, maxLen), maxLen) == TruncateString(s, maxLen)
  {
  }
}
