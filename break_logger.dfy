/**
 * The break event log: every append re-reads the stored log, appends the
 * new entry, keeps at most the most recent 1000 entries and stores the
 * result.  The file itself is abstracted to what a read of it yields.
 */
module BreakLogs {

  import opened Wrappers

  datatype LogEvent = Completed | Skipped | Postponed | Deferred | Started

  /** A log entry; the entry's own UUID is not modelled. */
  datatype LogEntry = LogEntry(
    date: real,
    tierName: string,
    tierColor: string,
    event: LogEvent,
    reason: Option<string>
  )

  /** What reading the log file yields: no file, a file that fails to read or decode, or the decoded entries. */
  datatype LogFile = Missing | Unreadable | Stored(entries: seq<LogEntry>)

  const MaxEntries: nat := 1000

  /** `loadEntries`: a missing or unreadable log reads as empty. */
  function LoadEntries(f: LogFile): (entries: seq<LogEntry>)
    ensures !f.Stored? ==> entries == []
  {
    match f
    case Stored(es) => es
    case _ => []
  }

  /** The entries `log` stores: the old ones plus the new one, cut to the most recent `MaxEntries`. */
  function Appended(entries: seq<LogEntry>, e: LogEntry): seq<LogEntry> {
    var all := entries + [e];
    if |all| > MaxEntries then all[|all| - MaxEntries..] else all
  }

  /**
   * After an append there are at most 1000 entries, the last one is the new
   * entry, and the stored entries are the most recent ones, in their order:
   * all old entries when there were fewer than 1000, else the newest 999.
   */
  lemma AppendedSpec(entries: seq<LogEntry>, e: LogEntry)
    ensures |Appended(entries, e)| <= MaxEntries
    ensures |Appended(entries, e)| == if |entries| < MaxEntries then |entries| + 1 else MaxEntries
    ensures Appended(entries, e)[|Appended(entries, e)| - 1] == e
    ensures |entries| < MaxEntries ==> Appended(entries, e) == entries + [e]
    ensures |entries| >= MaxEntries ==>
      Appended(entries, e) == entries[|entries| - (MaxEntries - 1)..] + [e]
  {
    var all := entries + [e];
    if |all| > MaxEntries {
      assert all[|all| - MaxEntries..] == entries[|entries| - (MaxEntries - 1)..] + [e];
    }
  }

  /** The stored log after appending each of `es` in turn. */
  function LogAll(f: LogFile, es: seq<LogEntry>): LogFile {
    if es == [] then f
    else Stored(Appended(LoadEntries(LogAll(f, es[..|es| - 1])), es[|es| - 1]))
  }

  /** Logging one more entry extends the run of appends by that entry. */
  lemma LogAllSnoc(f: LogFile, es: seq<LogEntry>, e: LogEntry)
    ensures LogAll(f, es + [e]) == Stored(Appended(LoadEntries(LogAll(f, es)), e))
  {
    assert (es + [e])[..|es|] == es;
  }

  class BreakLogger {
    var file: LogFile

    constructor (file: LogFile)
      ensures this.file == file
    {
      this.file := file;
    }

    /** `log(_:)`: load, append, trim, save. */
    method Log(entry: LogEntry)
      modifies this
      ensures file == Stored(Appended(LoadEntries(old(file)), entry))
    {
      var entries := LoadEntries(file);
      entries := entries + [entry];
      if |entries| > MaxEntries {
        entries := entries[|entries| - MaxEntries..];
      }
      file := Stored(entries);
    }
  }
}
