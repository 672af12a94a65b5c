/** The two record shapes that cross module boundaries: a decoded log line
    (`LogEntry` in src/database.ts) and a stored table row (`LogRecord`). */
module Records {
  import opened Wrappers

  /** One log observation after decoding. `traceId` is `None` where the
      source has `null` (an absent or empty trace id). */
  datatype LogEntry = LogEntry(
    source: string,
    date: string,
    time: string,
    level: string,
    traceId: Option<string>,
    content: string)

  /** A row of the `logs` table: the entry plus the identifier SQLite assigns
      (`INTEGER PRIMARY KEY AUTOINCREMENT`) and the ingestion timestamp
      (`DEFAULT CURRENT_TIMESTAMP`, taken from the server clock). */
  datatype Row = Row(id: nat, entry: LogEntry, createdAt: string)
}
