/** UnityMCPLogBuffer: the editor's log messages kept in a bounded queue.
    Each message is appended at the tail and the oldest one is dropped
    when the queue grows past 2000; readers copy the newest `count`
    entries, oldest first; Clear drains the queue. Only single-threaded use
    is modelled. */
module Logs {

  /** MAX_LOGS. */
  const MaxLogs: nat := 2000

  /** UnityEngine.LogType. */
  datatype LogType = Error | Assert | Warning | Log | Exception

  /** LogType.ToString(). */
  function TypeName(t: LogType): (r: string)
    ensures r in {"Error", "Assert", "Warning", "Log", "Exception"}
  {
    match t
    case Error => "Error"
    case Assert => "Assert"
    case Warning => "Warning"
    case Log => "Log"
    case Exception => "Exception"
  }

  /** One log message; `timestamp` is whatever the clock gave, as text. */
  datatype LogEntry = LogEntry(timestamp: string, kind: string, message: string, stackTrace: string)

  /** The queue after Enqueue(e) and the one TryDequeue that HandleLog makes
      when the count is over MaxLogs. */
  function Appended(q: seq<LogEntry>, e: LogEntry): (r: seq<LogEntry>)
    ensures 0 < |r| <= |q| + 1 && r[|r| - 1] == e
    ensures r == (q + [e])[|q| + 1 - |r|..]
    ensures |q| < MaxLogs ==> r == q + [e]
    ensures |q| <= MaxLogs ==> |r| <= MaxLogs
  {
    var grown := q + [e];
    if |grown| > MaxLogs then grown[1..] else grown
  }

  /** The newest `n` entries of `s`, oldest first. */
  function Newest(s: seq<LogEntry>, n: nat): (r: seq<LogEntry>)
    ensures |r| == (if |s| <= n then |s| else n)
    ensures r == s[|s| - |r|..]
  {
    if |s| <= n then s else s[|s| - n..]
  }

  /** FIFO order: appending to the window of what was logged gives the window
      of what was logged with the new entry, so the queue always holds the
      newest entries and never more than MaxLogs. */
  lemma WindowAfterAppend(logged: seq<LogEntry>, e: LogEntry)
    ensures Appended(Newest(logged, MaxLogs), e) == Newest(logged + [e], MaxLogs)
  {
    var w := Newest(logged, MaxLogs);
    var all := logged + [e];
    if |logged| >= MaxLogs {
      assert w + [e] == all[|all| - MaxLogs - 1..];
      assert (w + [e])[1..] == all[|all| - MaxLogs..];
    } else {
      assert w == logged;
    }
  }

  /** What GetRecent(count) returns for a queue holding `s`: the last
      min(count, |s|) entries, with a count below 1 read as 1. */
  function Recent(s: seq<LogEntry>, count: int): (r: seq<LogEntry>)
    ensures |r| == (if count < 1 then (if |s| == 0 then 0 else 1) else if count < |s| then count else |s|)
    ensures r == s[|s| - |r|..]
  {
    var n := if count < 1 then 1 else count;
    var start := if |s| - n > 0 then |s| - n else 0;
    s[start..]
  }

  /** A count below 1 reads as 1. */
  lemma RecentClampsCount(s: seq<LogEntry>, count: int)
    requires count < 1
    ensures Recent(s, count) == Recent(s, 1)
    ensures |s| > 0 ==> Recent(s, count) == [s[|s| - 1]]
  {
  }

  /** Reading every entry, or more, returns the whole queue. */
  lemma RecentAll(s: seq<LogEntry>, count: int)
    requires count >= |s|
    ensures Recent(s, count) == s
  {
  }

  /** The static queue of UnityMCPLogBuffer. */
  class LogBuffer {
    var entries: seq<LogEntry>
    /** Every entry logged since the buffer was made or last cleared. */
    ghost var logged: seq<LogEntry>

    ghost predicate Valid()
      reads this
    {
      entries == Newest(logged, MaxLogs)
    }

    constructor()
      ensures Valid() && entries == [] && logged == []
    {
      entries := [];
      logged := [];
    }

    /** ConcurrentQueue.Enqueue. */
    method Enqueue(e: LogEntry)
      modifies this
      ensures entries == old(entries) + [e] && logged == old(logged)
    {
      entries := entries + [e];
    }

    /** ConcurrentQueue.TryDequeue: removes the oldest entry if there is one. */
    method TryDequeue() returns (ok: bool)
      modifies this
      ensures ok <==> old(entries) != []
      ensures entries == (if ok then old(entries)[1..] else old(entries)) && logged == old(logged)
    {
      ok := entries != [];
      if ok {
        entries := entries[1..];
      }
    }

    /** HandleLog: the entry is appended and, when the count is then over
        MaxLogs, the oldest entry is dropped. */
    method HandleLog(timestamp: string, condition: string, stackTrace: string, t: LogType)
      requires Valid()
      modifies this
      ensures Valid() && |entries| <= MaxLogs
      ensures var e := LogEntry(timestamp, TypeName(t), condition, stackTrace);
              logged == old(logged) + [e] && entries == Appended(old(entries), e)
    {
      var e := LogEntry(timestamp, TypeName(t), condition, stackTrace);
      WindowAfterAppend(logged, e);
      Enqueue(e);
      logged := logged + [e];
      if |entries| > MaxLogs {
        var _ := TryDequeue();
      }
    }

    /** GetRecent(count): a copy of the newest entries, made by an index loop
        over a snapshot of the queue. */
    method GetRecent(count: int) returns (result: seq<LogEntry>)
      ensures result == Recent(entries, count)
    {
      var n := if count < 1 then 1 else count;
      var all := entries;
      var total := |all|;
      var startIndex := if total - n > 0 then total - n else 0;
      result := [];
      var i := startIndex;
      while i < total
        invariant startIndex <= i <= total
        invariant result == all[startIndex..i]
      {
        result := result + [all[i]];
        i := i + 1;
      }
      assert all[startIndex..total] == all[startIndex..];
    }

    /** Clear: dequeue until the queue is empty. */
    method Clear()
      modifies this
      ensures Valid() && entries == [] && logged == []
    {
      var more := true;
      while more
        invariant more || entries == []
        decreases |entries| + (if more then 1 else 0)
      {
        more := TryDequeue();
      }
      logged := [];
    }
  }
}
