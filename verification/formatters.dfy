/** The two text formatters the admin views use: cutting a long string
    down to a limit with a trailing "...", and capitalising a status. */
module Formatters {
  import opened Util
  import opened Types

  const DEFAULT_TRUNCATE_LENGTH: int := 50
  const ELLIPSIS: string := "..."

  /** `truncateString`: the empty string stays empty, a string within the
      limit is kept, and a longer one is cut to its first `length`
      characters (none when `length` is negative, as `substring` clamps)
      followed by "...". */
  function TruncateString(str: string, length: int := DEFAULT_TRUNCATE_LENGTH): (r: string)
    ensures str == "" ==> r == ""
    ensures |str| <= length ==> r == str
    ensures str != "" && |str| > length ==>
      |r| == (if length < 0 then 0 else length) + 3 && r[|r| - 3..] == ELLIPSIS
  {
    if str == "" then ""
    else if |str| <= length then str
    else str[..if length < 0 then 0 else length] + ELLIPSIS
  }

  /** A truncated string is a prefix of the original followed by "...", and
      it is never more than three characters over a non-negative limit. */
  lemma TruncatedIsPrefix(str: string, length: int)
    ensures var r := TruncateString(str, length);
      r == str || (|r| >= 3 && IsPrefix(r[..|r| - 3], str) && r[|r| - 3..] == ELLIPSIS)
    ensures length >= 0 ==> |TruncateString(str, length)| <= length + 3
  {
  }

  predicate IsPrefix(p: string, s: string)
  {
    |p| <= |s| && s[..|p|] == p
  }

  /** Truncating twice with the same limit gives the same text as once. */
  lemma TruncateIdempotent(str: string, length: int)
    ensures TruncateString(TruncateString(str, length), length) == TruncateString(str, length)
  {
    var r := TruncateString(str, length);
    if str != "" && |str| > length {
      var n := if length < 0 then 0 else length;
      assert r[..n] == str[..n];
    }
  }

  /** Without an explicit limit, strings of up to 50 characters are kept and
      longer ones become 53 characters. */
  lemma DefaultLimit(str: string)
    ensures |str| <= 50 ==> TruncateString(str) == str
    ensures |str| > 50 ==> |TruncateString(str)| == 53 && TruncateString(str)[..50] == str[..50]
  {
  }

  /** `formatStatus`: the first character upper-cased, the rest kept. */
  function FormatStatus(status: string): (r: string)
    ensures |r| == |status|
    ensures status != "" ==> r[0] == UpperChar(status[0])
    ensures |status| > 1 ==> r[1..] == status[1..]
  {
    if status == "" then "" else [UpperChar(status[0])] + status[1..]
  }

  /** Formatting an already formatted status changes nothing. */
  lemma FormatStatusIdempotent(status: string)
    ensures FormatStatus(FormatStatus(status)) == FormatStatus(status)
  {
    if status != "" {
      assert FormatStatus(FormatStatus(status)) == [UpperChar(UpperChar(status[0]))] + status[1..];
    }
  }

  /** The three stored statuses display as "Complete", "Incomplete" and
      "Pending", and each display text names one status only. */
  lemma StatusDisplay(s: Status, t: Status)
    ensures FormatStatus(StatusText(Complete)) == "Complete"
    ensures FormatStatus(StatusText(Incomplete)) == "Incomplete"
    ensures FormatStatus(StatusText(Pending)) == "Pending"
    ensures FormatStatus(StatusText(s)) == FormatStatus(StatusText(t)) ==> s == t
  {
  }
}
