/** The logs panel of the desktop UI: the log entries it keeps, at most
    `maxLogs` of them, the most recent last. */
module LogsPanel {

  /** `{ timestamp, level, message }` as built by `addLogEntry`. */
  datatype LogEntry = LogEntry(timestamp: string, level: string, message: string)

  const MaxLogs: nat := 100

  /** The list after `push(log)` and, past the cap, `slice(-100)`: the most recent
      entries, the new one last, never more than the cap, and nothing dropped
      while there is room. */
  function Appended(logs: seq<LogEntry>, log: LogEntry): (r: seq<LogEntry>)
    ensures |r| == if |logs| < MaxLogs then |logs| + 1 else MaxLogs
    ensures r == (logs + [log])[|logs| + 1 - |r|..]
    ensures r[|r| - 1] == log
  {
    var l := logs + [log];
    if |l| > MaxLogs then l[|l| - MaxLogs..] else l
  }

  /** While there is room, an entry is appended and nothing else changes. */
  lemma AppendWithRoom(logs: seq<LogEntry>, log: LogEntry)
    requires |logs| < MaxLogs
    ensures Appended(logs, log) == logs + [log]
  {
  }

  /** At the cap, the oldest entry goes and the rest keep their order. */
  lemma AppendAtCap(logs: seq<LogEntry>, log: LogEntry)
    requires |logs| == MaxLogs
    ensures Appended(logs, log) == logs[1..] + [log]
  {
    var r := Appended(logs, log);
    assert (logs + [log])[1..] == logs[1..] + [log];
  }

  /** Entries already in the list survive the next append, one place lower, as
      long as they were not the oldest of a full list. */
  lemma {:induction false} AppendKeepsRecent(logs: seq<LogEntry>, log: LogEntry, i: nat)
    requires |logs| <= MaxLogs && i < |logs| && (|logs| < MaxLogs || i > 0)
    ensures var r := Appended(logs, log);
      (|logs| < MaxLogs ==> r[i] == logs[i]) && (|logs| == MaxLogs ==> r[i - 1] == logs[i])
  {
    if |logs| < MaxLogs {
      AppendWithRoom(logs, log);
    } else {
      AppendAtCap(logs, log);
    }
  }

  class LogsPanelComponent {
    var logs: seq<LogEntry>
    const maxLogs: nat

    predicate Valid()
      reads this
    {
      maxLogs == MaxLogs && |logs| <= maxLogs
    }

    constructor ()
      ensures Valid() && logs == []
    {
      logs := [];
      maxLogs := MaxLogs;
    }

    /** `addLog`. */
    method AddLog(log: LogEntry)
      requires Valid()
      modifies this`logs
      ensures Valid() && logs == Appended(old(logs), log)
    {
      logs := logs + [log];
      if |logs| > maxLogs {
        logs := logs[|logs| - maxLogs..];
      }
    }

    /** `clearLogs`. */
    method ClearLogs()
      requires Valid()
      modifies this`logs
      ensures Valid() && logs == []
    {
      logs := [];
    }
  }
}
