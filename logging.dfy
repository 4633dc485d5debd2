/** The logger the validator writes to, reduced to what the validator uses:
    two severities, and an append-only record of what was logged. Where the
    entries are then printed is not modelled. */
module Logging {

  datatype Level = Warning | Debug

  datatype LogEntry = LogEntry(level: Level, message: string)

  class Logger {
    var entries: seq<LogEntry>

    constructor ()
      ensures entries == []
    {
      entries := [];
    }

    /** `$logger->warning($message)` */
    method Warning(message: string)
      modifies this
      ensures entries == old(entries) + [LogEntry(Level.Warning, message)]
    {
      entries := entries + [LogEntry(Level.Warning, message)];
    }

    /** `$logger->debug($message)` */
    method Debug(message: string)
      modifies this
      ensures entries == old(entries) + [LogEntry(Level.Debug, message)]
    {
      entries := entries + [LogEntry(Level.Debug, message)];
    }
  }
}
