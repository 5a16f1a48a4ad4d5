/**
 * Message shaping before a user log is serialised: over-long messages are
 * cut to the length limit and marked, and the log at the count limit gets
 * the discard notice. Lengths are in bytes, so messages are byte sequences.
 */
module FormatLog {
  import opened Strings

  const LogLevelError := 4
  const LogLevelWarn := 5
  const LogLevelInfo := 6

  const LogCountLimit := 10000
  const LogLengthLimit := 10000
  /** The tip is a raw string literal: it starts with a backslash and an 'n', not a newline. */
  const LogLengthLimitTip: seq<byte> := Ascii("\\n... The log has been truncated because it exceeds the length limit.")
  const LogCountLimitTip: seq<byte> := Ascii("The log has been discarded because it exceeded the limit of  10000")

  /** A message over the length limit becomes its first LogLengthLimit bytes followed by the tip. */
  function Truncate(content: seq<byte>): (r: seq<byte>)
    ensures |content| <= LogLengthLimit ==> r == content
    ensures |content| > LogLengthLimit ==> r == content[..LogLengthLimit] + LogLengthLimitTip
  {
    if |content| > LogLengthLimit then content[..LogLengthLimit] + LogLengthLimitTip else content
  }

  /** The truncated message is never longer than the limit plus the tip, and keeps the message's head. */
  lemma TruncateBound(content: seq<byte>)
    ensures |Truncate(content)| <= LogLengthLimit + |LogLengthLimitTip|
    ensures var n := if |content| < LogLengthLimit then |content| else LogLengthLimit;
      Truncate(content)[..n] == content[..n]
  {
  }

  datatype FormatLog = FormatLog(
    level: int,
    eventID: string,
    functionAPIID: string,
    logID: string,
    timestamp: int,
    message: seq<byte>,
    tenantID: int,
    tenantType: int,
    namespace: string,
    logType: string)

  /** The message GetFormatLogWithMessage serialises: truncated, then marked when the stream count hits the limit. */
  function ShapeMessage(message: seq<byte>, streamLogCount: int): (r: seq<byte>)
    ensures streamLogCount == LogCountLimit ==> r == Truncate(message) + LogCountLimitTip
    ensures streamLogCount != LogCountLimit ==> r == Truncate(message)
  {
    var m := Truncate(message);
    if streamLogCount == LogCountLimit then m + LogCountLimitTip else m
  }

  /** GetFormatLogWithMessage before serialisation: only the message changes. */
  function GetFormatLogWithMessage(formatLog: FormatLog, streamLogCount: int): (r: FormatLog)
    ensures r.message == ShapeMessage(formatLog.message, streamLogCount)
    ensures r.(message := formatLog.message) == formatLog
  {
    formatLog.(message := ShapeMessage(formatLog.message, streamLogCount))
  }

  /** A short message below the count limit passes unchanged; a long one keeps its first 10000 bytes. */
  lemma ShapeMessageCases(message: seq<byte>, streamLogCount: int)
    ensures |message| <= LogLengthLimit && streamLogCount != LogCountLimit ==> ShapeMessage(message, streamLogCount) == message
    ensures |message| > LogLengthLimit ==>
      ShapeMessage(message, streamLogCount)[..LogLengthLimit] == message[..LogLengthLimit]
      && ShapeMessage(message, streamLogCount)[LogLengthLimit..LogLengthLimit + |LogLengthLimitTip|] == LogLengthLimitTip
    ensures streamLogCount == LogCountLimit ==>
      var r := ShapeMessage(message, streamLogCount);
      |r| >= |LogCountLimitTip| && r[|r| - |LogCountLimitTip|..] == LogCountLimitTip
  {
    var m := Truncate(message);
    if |message| > LogLengthLimit {
      var r := ShapeMessage(message, streamLogCount);
      assert r[..LogLengthLimit] == m[..LogLengthLimit] == message[..LogLengthLimit];
      assert r[LogLengthLimit..LogLengthLimit + |LogLengthLimitTip|] == m[LogLengthLimit..] == LogLengthLimitTip;
    }
  }
}
