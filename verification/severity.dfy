/**
  The severity switch of the middleware: which level and message a response
  status is logged with, and when nothing is logged at all.
 */
module Severity {
  import opened Wrappers
  import opened Zap

  predicate Is2xx(status: int)
  {
    200 <= status < 300
  }

  /** The switch on the response status, its cases tried top to bottom.
      None means no record is written. */
  function Classify(status: int, skip2xx: bool): (r: Option<(Level, string)>)
    ensures r.None? <==> skip2xx && Is2xx(status)
    ensures 500 <= status ==> r == Some((ErrorLevel, "Server error"))
    ensures 400 <= status < 500 ==> r == Some((WarnLevel, "Client error"))
    ensures 300 <= status < 400 ==> r == Some((InfoLevel, "Redirection"))
    ensures status < 300 && r.Some? ==> r == Some((InfoLevel, "Success"))
  {
    if status >= 500 then Some((ErrorLevel, "Server error"))
    else if status >= 400 then Some((WarnLevel, "Client error"))
    else if status >= 300 then Some((InfoLevel, "Redirection"))
    else if status >= 200 then
      if !skip2xx then Some((InfoLevel, "Success")) else None
    else Some((InfoLevel, "Success"))
  }

  /** Skip2XX only ever suppresses a record: it never changes the level or
      message of one that is written, and it has no effect outside [200, 300). */
  lemma SkipOnlySuppresses(status: int)
    ensures Classify(status, false).Some?
    ensures Classify(status, true).Some? ==> Classify(status, true) == Classify(status, false)
    ensures !Is2xx(status) ==> Classify(status, true) == Classify(status, false)
  {
  }

  /** A larger status is never logged at a lower level. */
  lemma ClassifyMonotone(s1: int, s2: int, skip2xx: bool)
    requires s1 <= s2
    requires Classify(s1, skip2xx).Some? && Classify(s2, skip2xx).Some?
    ensures Rank(Classify(s1, skip2xx).value.0) <= Rank(Classify(s2, skip2xx).value.0)
  {
  }

  /** The message names the level: each message is written at exactly one level,
      and Error and Warn records come from exactly the 5xx-and-above and 4xx ranges. */
  lemma MessageMatchesLevel(status: int, skip2xx: bool)
    requires Classify(status, skip2xx).Some?
    ensures var (level, msg) := Classify(status, skip2xx).value;
      && (level == ErrorLevel <==> msg == "Server error")
      && (level == WarnLevel <==> msg == "Client error")
      && (level == ErrorLevel <==> 500 <= status)
      && (level == WarnLevel <==> 400 <= status < 500)
  {
  }
}
