/**
 * The function logger: a buffer of log entries sent in one batch at the end
 * of an invocation, with per-level counters, a sequence number, and an
 * aggregation entry summarising the invocation. Time is the `now`
 * parameter (milliseconds); serialisation, compression, the console echo
 * and the network send are not modelled.
 */
module Logging {
  import opened Wrappers
  import opened Strings
  import opened FormatLog

  const LogDomain := "lowcode_func_log"
  const NormalLog := 1
  const AggregationLog := 2

  datatype Tag = Tag(key: string, value: string)

  datatype ExtraInfo = ExtraInfo(functionVersionID: int, triggerTimeCost: int, runtimeCost: int)

  /** A buffered log entry, before JSON serialisation. */
  datatype Log = Log(
    domain: string,
    logType: int,
    level: int,
    createTime: int,
    requestID: string,
    sequence: int,
    content: seq<byte>,
    tags: seq<Tag>,
    extraInfo: ExtraInfo)

  class Logger {
    const requestID: string
    const startTriggerTime: int
    const startRuntime: int
    const isDebug: bool
    const isLegacyLoggerDisabled: bool
    const tags: seq<Tag>
    const extraInfo: ExtraInfo
    var logs: seq<Log>
    var errorNum: int
    var infoNum: int
    var warnNum: int
    var sequence: int

    /**
     * NewLogger; the context's readings are parameters. Tags and extra info
     * are only gathered outside debug mode.
     */
    constructor (requestID: string, startTriggerTime: int, now: int, isDebug: bool, isLegacyLoggerDisabled: bool,
                 tags: seq<Tag>, extraInfo: ExtraInfo)
      ensures this.requestID == requestID && this.startTriggerTime == startTriggerTime && startRuntime == now
      ensures this.isDebug == isDebug && this.isLegacyLoggerDisabled == isLegacyLoggerDisabled
      ensures this.tags == (if isDebug then [] else tags)
      ensures this.extraInfo == (if isDebug then ExtraInfo(0, 0, 0) else extraInfo)
      ensures logs == [] && errorNum == 0 && infoNum == 0 && warnNum == 0 && sequence == 1
    {
      this.requestID := requestID;
      this.startTriggerTime := startTriggerTime;
      startRuntime := now;
      this.isDebug := isDebug;
      this.isLegacyLoggerDisabled := isLegacyLoggerDisabled;
      this.tags := if isDebug then [] else tags;
      this.extraInfo := if isDebug then ExtraInfo(0, 0, 0) else extraInfo;
      logs := [];
      errorNum := 0;
      infoNum := 0;
      warnNum := 0;
      sequence := 1;
    }

    /** getSequence: the next sequence number. */
    method GetSequence() returns (s: int)
      modifies this`sequence
      ensures s == old(sequence) + 1 && sequence == s
    {
      sequence := sequence + 1;
      s := sequence;
    }

    /** tagsAddNum: the three counters appended after the entry's tags, in the order info, warn, error. */
    function TagsAddNum(log: Log): (r: Log)
      reads this
      ensures |r.tags| == |log.tags| + 3 && r.tags[..|log.tags|] == log.tags
      ensures r.tags[|log.tags|] == Tag("infoNum", IntToString(infoNum))
      ensures r.tags[|log.tags| + 1] == Tag("warnNum", IntToString(warnNum))
      ensures r.tags[|log.tags| + 2] == Tag("errorNum", IntToString(errorNum))
      ensures r.(tags := log.tags) == log
    {
      log.(tags := log.tags + [Tag("infoNum", IntToString(infoNum)), Tag("warnNum", IntToString(warnNum)), Tag("errorNum", IntToString(errorNum))])
    }

    /** The non-aggregation entry for `content` at buffer length `count`: the entry at 9999 carries the count tip instead. */
    function NormalEntry(content: seq<byte>, level: int, logType: int, now: int, seqNo: int, count: int): (r: Log)
      reads this
      ensures r.logType == logType && r.level == level && r.sequence == seqNo && r.tags == []
      ensures count == LogCountLimit - 1 ==> r.content == LogCountLimitTip
      ensures count != LogCountLimit - 1 ==> r.content == Truncate(content)
    {
      Log(LogDomain, logType, level, now, requestID, seqNo,
          if count == LogCountLimit - 1 then LogCountLimitTip else Truncate(content), [], ExtraInfo(0, 0, 0))
    }

    /** The aggregation entry: the logger's tags plus the counters, error level iff some error was logged, and the time costs. */
    function AggregationEntry(content: seq<byte>, level: int, now: int, seqNo: int): (r: Log)
      reads this
      ensures r.logType == AggregationLog && r.sequence == seqNo && r.content == Truncate(content)
      ensures r.level == (if errorNum > 0 then LogLevelError else level)
      ensures |r.tags| == |tags| + 3 && r.tags[..|tags|] == tags
      ensures r.extraInfo.runtimeCost == now - startRuntime
      ensures r.extraInfo.triggerTimeCost == (if now - startTriggerTime <= 0 then now - startRuntime else now - startTriggerTime)
      ensures r.extraInfo.functionVersionID == extraInfo.functionVersionID
    {
      var log := TagsAddNum(Log(LogDomain, AggregationLog, level, now, requestID, seqNo, Truncate(content), tags, extraInfo));
      var log := if errorNum > 0 then log.(level := LogLevelError) else log;
      var triggerTimeCost := now - startTriggerTime;
      var runtimeCost := now - startRuntime;
      log.(extraInfo := log.extraInfo.(triggerTimeCost := if triggerTimeCost <= 0 then runtimeCost else triggerTimeCost,
                                       runtimeCost := runtimeCost))
    }

    /**
     * addLog. The stream echo takes one sequence number; the buffered entry
     * takes the next. A disabled legacy logger buffers nothing, and a
     * normal entry is dropped once the buffer holds LogCountLimit entries.
     */
    method AddLog(content: seq<byte>, level: int, logType: int, now: int)
      modifies this`logs, this`sequence
      ensures isLegacyLoggerDisabled || (logType == NormalLog && |old(logs)| >= LogCountLimit) ==>
        logs == old(logs) && sequence == old(sequence) + 1
      ensures !isLegacyLoggerDisabled && logType == AggregationLog ==>
        logs == old(logs) + [AggregationEntry(content, level, now, old(sequence) + 2)] && sequence == old(sequence) + 2
      ensures !isLegacyLoggerDisabled && logType != AggregationLog && |old(logs)| < LogCountLimit ==>
        logs == old(logs) + [NormalEntry(content, level, logType, now, old(sequence) + 2, |old(logs)|)] && sequence == old(sequence) + 2
      ensures !isLegacyLoggerDisabled && logType != AggregationLog && logType != NormalLog && |old(logs)| >= LogCountLimit ==>
        logs == old(logs) && sequence == old(sequence) + 2
      ensures logType != AggregationLog ==> |logs| <= (if |old(logs)| > LogCountLimit then |old(logs)| else LogCountLimit)
    {
      var streamSeq := GetSequence();
      if isLegacyLoggerDisabled {
        return;
      }
      if logType == NormalLog && |logs| >= LogCountLimit {
        return;
      }
      var s := GetSequence();
      if logType == AggregationLog {
        logs := logs + [AggregationEntry(content, level, now, s)];
        return;
      }
      if |logs| < LogCountLimit {
        logs := logs + [NormalEntry(content, level, logType, now, s, |logs|)];
      }
    }

    /** Infof, Warnf and Errorf outside debug mode: count the level, then buffer the message. */
    method LogAt(level: int, message: seq<byte>, now: int)
      requires level == LogLevelInfo || level == LogLevelWarn || level == LogLevelError
      modifies this`logs, this`sequence, this`infoNum, this`warnNum, this`errorNum
      ensures isDebug ==> logs == old(logs) && sequence == old(sequence)
      ensures isDebug ==> infoNum == old(infoNum) && warnNum == old(warnNum) && errorNum == old(errorNum)
      ensures !isDebug ==>
        && infoNum == old(infoNum) + (if level == LogLevelInfo then 1 else 0)
        && warnNum == old(warnNum) + (if level == LogLevelWarn then 1 else 0)
        && errorNum == old(errorNum) + (if level == LogLevelError then 1 else 0)
      ensures !isDebug && !isLegacyLoggerDisabled && |old(logs)| < LogCountLimit ==>
        logs == old(logs) + [NormalEntry(message, level, NormalLog, now, old(sequence) + 2, |old(logs)|)]
      ensures !isDebug && (isLegacyLoggerDisabled || |old(logs)| >= LogCountLimit) ==> logs == old(logs)
      // the stream echo takes one sequence number, a buffered entry the next
      ensures !isDebug ==>
        sequence == old(sequence) + (if isLegacyLoggerDisabled || |old(logs)| >= LogCountLimit then 1 else 2)
    {
      if isDebug {
        return;
      }
      if level == LogLevelInfo {
        infoNum := infoNum + 1;
      } else if level == LogLevelWarn {
        warnNum := warnNum + 1;
      } else {
        errorNum := errorNum + 1;
      }
      AddLog(message, level, NormalLog, now);
    }

    /**
     * Send's guards: a disabled legacy logger, debug mode or an empty
     * buffer send nothing; otherwise the aggregation entry is added and the
     * whole buffer is what is sent.
     */
    method Send(now: int) returns (sent: Option<seq<Log>>)
      modifies this`logs, this`sequence
      ensures isLegacyLoggerDisabled || isDebug || old(logs) == [] ==> sent.None? && logs == old(logs) && sequence == old(sequence)
      ensures !isLegacyLoggerDisabled && !isDebug && old(logs) != [] ==>
        && logs == old(logs) + [AggregationEntry([], LogLevelInfo, now, old(sequence) + 2)]
        && sequence == old(sequence) + 2
        && sent == Some(logs)
    {
      if isLegacyLoggerDisabled || isDebug || |logs| == 0 {
        return None;
      }
      AddLog([], LogLevelInfo, AggregationLog, now);
      return Some(logs);
    }
  }

  /** A fresh logger's first sequence number is 2, and numbers strictly increase. */
  method SequenceStartsAtTwo() returns (first: int, second: int)
    ensures first == 2 && second == 3
  {
    var l := new Logger("req", 0, 0, false, false, [], ExtraInfo(0, 0, 0));
    first := l.GetSequence();
    second := l.GetSequence();
  }
}
