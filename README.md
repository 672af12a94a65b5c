# m3-log-server: a Dafny model of the log pipeline

This project models the log ingestion and query pipeline of m3-log-server, and
proves properties of the model:

- **Wire codec** (`WireFormat`, `Text`). Every SDK's `log()` turns a record
  into one tab-separated line. The server's `parseLogLine` turns it back.
  `EscapeContent` and `UnescapeContent` model each chained `replace` with a
  global pattern as a left-to-right, non-overlapping rewrite. `Split` is
  JavaScript's unlimited `split('\t')`.
- **Client buffer** (`ClientBuffer`). The `M3Logger` of the Node.js, web,
  Android and iOS SDKs is one class, `Logger`, with the buffer, the batch
  size, the timer it holds and the number of stray timers as fields. A
  stray timer is one an earlier `init` started and nothing stops any more.
  - A flush hands the whole buffer to the network as one batch in flight
    (`pending`).
  - The network later reports the batch's outcome through `Complete`. A
    transport error puts the batch back in front of the buffer. Any HTTP
    status ends the batch.
  - The Node.js SDK empties the buffer before it parses the endpoint as a
    URL. When the parse throws, that batch is lost. Whether the endpoint
    parses is given to the constructor.
  - Ghost multisets of logged, delivered, dropped and lost lines give the
    invariant that every logged line is accounted for.
- **Server ingestion** (`Ingestion`). `handleLogSubmit` and
  `handleBatchLogSubmit` take the already-decoded request fields. A batch is
  decoded in full before anything is inserted.
- **Storage and query** (`Storage`, `Query`, `Ordering`).
  - `LogDatabase` keeps the `logs` table as a sequence of rows plus the next
    `AUTOINCREMENT` identifier.
  - `InsertLogBatch` is one transaction. A failing statement is a parameter,
    and when one fails the table rolls back.
  - `queryLogs` is modelled in two layers. First, an imperative builder of
    the SQL text and the parameter list. Second, the meaning of the
    resulting statement: filter by every truthy filter, order by `date DESC,
    time DESC`, apply `LIMIT`, then the in-memory regular-expression stage.
  - SQLite's `LIKE` and JavaScript's `RegExp` are not interpreted. A query
    receives them as the functions of a `Matchers` value.
  - `Variant` selects between the two copies of `queryLogs`: src/database.ts
    doubles backslashes in the LIKE parameter, and src/database.js does not.

The TypeScript and JavaScript copies of the server and of the Node.js SDK
behave the same way. The two copies of the database differ in the LIKE
escaping and in the schema. The inline `INDEX` clauses of the JavaScript
`CREATE TABLE` (src/database.js:19-35) are not valid SQLite, so that copy's
constructor fails before any log is stored. The model describes the
TypeScript schema. Each member cites the TypeScript copy, and the JavaScript
copy where its code is the same.

In six places the code does not do what the system is meant to do. The
model follows the code in each:

- **Field split.** The intended format splits into at most five fields and
  rejects extra ones. The code splits without limit and
  ignores every field after the fifth, so a tab inside the content truncates
  it (`TrailingFieldsIgnored`, `TabInContentTruncates`).
- **Decoding.** Decoding is meant to be the exact inverse of encoding. In the code, a content holding a backslash followed by `n` comes
  back with a newline in place of the `n` (`ContentRoundTrip`,
  `BackslashNCounterexample`).
- **Non-200 responses.** A non-200 response is meant to return the batch
  to the buffer. Every SDK only reports it, and the batch is
  dropped (`Logger.Complete`, `RejectedBatchIsDropped`). The web SDK does not
  look at the status at all.
- **Unparseable endpoint.** A failed send is meant to return the batch to
  the buffer. The Node.js `flush` clears the buffer and only then calls
  `new URL`, which throws for an endpoint such as `localhost`. The batch is
  neither sent nor put back (`Logger.Lose`, `BadEndpointLosesBatch`). The
  other SDKs put it back.
- **Invalid regular expressions.** An invalid pattern is meant to give the
  same answer as no pattern. The code still applies the LIKE
  pre-filter, so only the in-memory stage is skipped
  (`InvalidRegexPassesRows`).
- **The LIKE pre-filter.** The comment at src/database.ts:129-131 presents
  LIKE as an initial filter before the regular expression, with its
  wildcards escaped, so it should never exclude a row the regular
  expression would match. The statement has no `ESCAPE` clause,
  so SQLite keeps the inserted backslashes as literal characters. The
  pattern is also matched literally, not as a regular expression
  (`NoEscapeClauseKeepsBackslash`, `UnescapedWildcard`). The model states the
  pre-filter as what it is and does not claim it is sound.

## Model

| member | source | states |
|---|---|---|
| WireFormat.EscapeBackslashes | sdk/node/m3-logger.ts:56-57 | Doubling backslashes lengthens the text by exactly its number of backslashes and neither adds nor removes newlines or tabs |
| WireFormat.EscapeNewlines | sdk/node/m3-logger.ts:58 | After the newline pass the text holds no newline at all, so one record is one line; it grows by one character per newline and keeps tabs as they were |
| WireFormat.EscapeContentAppend | sdk/node/m3-logger.ts:56-58 | Escaping works character by character: the escape of a concatenation is the concatenation of the escapes |
| WireFormat.EncodedLineHasFourTabs | sdk/node/m3-logger.ts:60 | A line built from tab-free fields holds exactly four tabs, one between each pair of the five fields |
| WireFormat.SplitEncodedLine | sdk/node/m3-logger.ts:60 | The server's split of an SDK line gives back date, time, level, the trace field and the escaped content, in that order |
| WireFormat.EmptyTraceIdIsAbsent | sdk/node/m3-logger.ts:60 | An empty trace id and a missing one produce the same line, so the server cannot tell them apart |
| WireFormat.NormalizeTrace | src/server.ts:52 | The server's trace id is null exactly when the client sent none or an empty one, and otherwise it is the client's value |
| WireFormat.ParseRejectsShortLines | src/server.ts:42-45 | A line is rejected exactly when it has fewer than four tabs (fewer than five fields), and the error is "Invalid log format"; the same holds of src/server.js:36-39 |
| WireFormat.TrailingFieldsIgnored | src/server.ts:42-53 | Appending a tab and any text to an accepted line changes nothing in the decoded record: fields after the fifth are dropped, never rejected |
| WireFormat.TabInContentTruncates | src/server.ts:42-53 | A tab inside the content cuts the stored content at that tab, and the record is still accepted |
| WireFormat.SplitAppend | src/server.ts:42 | Splitting text joined at a tab yields the fields of the left part followed by those of the right part |
| WireFormat.MangleAt | src/server.ts:53 | The stored form of a content has the content's length, and differs from it only where an `n` follows a backslash, which becomes a newline |
| WireFormat.MangleIdentity | src/server.ts:53 | The stored form equals the content exactly when the content has no backslash directly followed by `n` |
| WireFormat.ContentRoundTrip | src/server.ts:53 | For every content, decoding its escape gives the content with each backslash-`n` turned into backslash-newline, nothing else changed |
| WireFormat.ContentRoundTripExact | src/server.ts:53 | Decoding inverts encoding for a content exactly when the content has no backslash directly followed by `n` (both directions) |
| WireFormat.BackslashNCounterexample | src/server.ts:53 | The two-character content backslash, `n` comes back as backslash, newline |
| WireFormat.LineRoundTrip | src/server.ts:40-55 | For tab-free fields, the server decodes an SDK line into the same date, time and level, the normalised trace id, the content with backslash-`n` mangled, and the source it was given; the same holds of src/server.js:34-49 |
| WireFormat.LineRoundTripExact | src/server.ts:40-55 | For tab-free fields, the whole record survives the trip (trace id normalised) exactly when the content has no backslash directly followed by `n` |
| Text.Split | src/server.ts:42 | The split yields at least one field and no field holds a tab |
| Text.SplitLength | src/server.ts:42 | The split yields one field more than the text has tabs |
| Text.SplitJoin | src/server.ts:42 | Splitting the tab-join of tab-free fields gives those fields back |
| Text.JoinSplit | src/server.ts:42 | Joining the fields of any text with tabs gives that text back, so the split loses nothing |
| Text.LexLessTransitive | src/database.ts:118-126 | The string order used by `date >= ?` and `date <= ?` is transitive |
| Text.LexLessTotal | src/database.ts:118-126 | Two different strings are always ordered one way or the other |
| Text.LexLessAsymmetric | src/database.ts:118-126 | No two strings are each below the other |
| Ingestion.SourceOr | src/server.ts:94 | The source is never empty: a missing or empty source becomes `unknown`, and any other source is kept |
| Ingestion.ParseAll | src/server.ts:110-112 | The batch decodes exactly when every line decodes; then there is one entry per line, each the line's own decoding, and otherwise the error is "Invalid log format" |
| Ingestion.ParseAllSource | src/server.ts:110-112 | Every decoded entry of a batch carries the request's source |
| Ingestion.HandleLogSubmit | src/server.ts:89-103 | A line that does not decode, or an insert that throws, answers 400 with the error and leaves the table alone; otherwise exactly one row holding the decoded record is appended and the answer is 200 |
| Ingestion.HandleBatchLogSubmit | src/server.ts:105-122 | The answer is 200 exactly when every line decodes and no insert throws; then all decoded records are appended in order and the count is the number of lines; on 400 the table is unchanged; the same holds of src/server.js:99-116 |
| Ingestion.EncodedBatchAccepted | src/server.ts:110-114 | A batch of SDK lines with tab-free fields always decodes, and each entry is the record the SDK saw, up to the wire format's normalisation |
| Storage.StampKeepsIds | src/database.ts:57 | Appending freshly numbered rows keeps identifiers strictly increasing and below the next identifier |
| Storage.LogDatabase.constructor | src/database.ts:38-48 | Opening the database keeps the rows and the identifier counter already in `logs.db`, an empty table with first identifier 1 for a new file; the identifier invariant is required of the stored table |
| Storage.LogDatabase.InsertLog | src/database.ts:76-82 | On success exactly one row holding the entry is appended with the next identifier, which is returned; on failure nothing changes |
| Storage.LogDatabase.InsertLogBatch | src/database.ts:84-97 | The batch succeeds exactly when no statement of it throws; then all entries are appended in order with consecutive identifiers, and success carries no value, as `insertLogBatch` returns nothing; otherwise table and counter roll back; the same holds of src/database.js:46-59 |
| Storage.RetainedExactly | src/database.ts:177 | A row survives the delete exactly when it was in the table and its date is not before the cutoff |
| Storage.RetainedPlusExpired | src/database.ts:177-178 | Every row is either kept or removed, so the reported change count is the number of removed rows |
| Storage.RetainedKeepsIds | src/database.ts:177 | The surviving rows keep their relative order and the identifier invariant |
| Storage.LogDatabase.DeleteOldLogs | src/database.ts:172-179 | The table becomes exactly its rows dated at or after the cutoff, in order; the counter is unchanged and the count is the number of rows removed; the same holds of src/database.js:128-135 |
| Storage.LogDatabase.QueryLogs | src/database.ts:99-157 | Building the statement, running it and applying the regular expression gives the answer that `Query.Answer` defines from the filters alone |
| Query.EscapeWildcards | src/database.ts:136 | The wildcard pass lengthens the pattern by one backslash per `%` and per `_` |
| Query.DoubledEscapeReadsLiterally | src/database.ts:134-137 | Read with backslash as an escape character, the TypeScript parameter's middle matches exactly the user's text, backslashes included |
| Query.WildcardsOnlyLosesBackslash | src/database.js:93 | The JavaScript escaping leaves a user's backslash alone, so under an escape reading it would swallow the next character |
| Query.UnescapedWildcard | src/database.ts:128-137 | Without an `ESCAPE` clause, an escaped `%` or `_` reads as a literal backslash followed by a wildcard |
| Query.NoEscapeClauseKeepsBackslash | src/database.ts:128-137 | For a pattern with `_` between two ordinary characters, the parameter as SQLite reads it demands a literal backslash and is not the literal pattern |
| Query.CompileCount | src/database.ts:103-138 | One clause per truthy filter and none for a falsy one |
| Query.CompileFromFilters | src/database.ts:103-138 | Every clause answers a truthy filter and carries that filter's value (the escaped LIKE parameter for `contentRegex`) |
| Query.CompileOrdered | src/database.ts:103-138 | Clause kinds come in the fixed order source, level, trace id, start date, end date, content, so none is repeated; the same holds of src/database.js:65-94 |
| Query.PlaceholderCount | src/database.ts:100-140 | The finished SQL text has one `?` per clause plus one for `LIMIT` |
| Query.AndIf | src/database.ts:103-106 | One conditional step appends the clause's text and parameter exactly when the filter is truthy, and keeps text and parameters in step |
| Query.BuildWhere | src/database.ts:100-138 | The six conditional steps build the clauses of the truthy filters, with text and parameters in step |
| Query.BuildQuery | src/database.ts:99-141 | The parameters are the clause values in order followed by the limit, which is `filters.limit` when truthy and 1000 otherwise, and the text has as many `?` as there are parameters |
| Query.FiltersAsConditions | src/database.ts:103-138 | The filters hold of a row exactly when each of the six per-filter conditions holds |
| Query.CompileMeaning | src/database.ts:103-138 | The compiled WHERE clause holds of a row exactly when every truthy filter holds of it: equal source, level and trace id, start date at or before the date, end date at or after it, and a LIKE match of the content |
| Query.TakeLimit | src/database.ts:141 | `LIMIT n` keeps a prefix of the rows: all of them when `n` is negative, otherwise the first `n` or all when there are fewer |
| Query.ExecuteCompiled | src/database.ts:143-154 | Running the compiled statement and the regular-expression stage gives the answer defined from the filters |
| Query.RegexStageSubseq | src/database.ts:146-154 | The regular-expression stage only removes rows and keeps their order |
| Query.InvalidRegexPassesRows | src/database.ts:146-154 | A pattern that does not compile leaves SQLite's rows as they are, and every one still passed the LIKE pre-filter; the same holds of src/database.js:102-110 |
| Query.AnswerSound | src/database.ts:99-157 | Every returned row is a table row satisfying every truthy filter and, for a compiling pattern, matching it |
| Query.AnswerSorted | src/database.ts:140 | The answer is newest first by date, then time |
| Query.AnswerBounded | src/database.ts:141 | With a non-negative limit, at most that many rows come back |
| Query.AnswerComplete | src/database.ts:99-157 | When the limit cuts nothing, every table row that satisfies the filters and the pattern is returned |
| Query.NoFiltersReturnsTable | src/database.ts:99-157 | With no truthy filter and a limit that cuts nothing, the statement has no conditions and the answer holds exactly the table's rows |
| Ordering.SortDescCorrect | src/database.ts:140 | The ordering step returns a permutation of its rows that is newest first |
| Ordering.InsertSorted | src/database.ts:140 | Inserting a row into a newest-first sequence keeps it newest first |
| Ordering.InsertPermutes | src/database.ts:140 | Inserting a row adds exactly that row |
| Ordering.TiesReversed | src/database.ts:140 | The tie order the model fixes, where SQLite fixes none: of two rows with the same date and time, the later one in the table comes back first |
| ClientBuffer.DefaultSource | sdk/android/M3Logger.java:38 | Each platform's default source is non-empty |
| ClientBuffer.Logger.constructor | sdk/android/M3Logger.java:36-43 | A new logger has batch size 1, an empty buffer, no timer, nothing in flight and nothing lost; a missing source takes the platform's default; only a Node.js logger whose endpoint does not parse loses batches |
| ClientBuffer.Logger.Init | sdk/node/m3-logger.ts:33-42 | `init` sets the batch size and starts a timer, which the logger now holds; a timer it held that was still running becomes a stray; the buffer and the batches in flight are untouched |
| ClientBuffer.Logger.Log | sdk/node/m3-logger.ts:50-67 | The encoded line is appended; when the buffer reaches the batch size it is left empty and sent whole as one batch, or lost when the Node.js URL parse throws; afterwards the buffer is empty or below the batch size, and every line is accounted for; the same holds of sdk/android/M3Logger.java:70-90 |
| ClientBuffer.Logger.Flush | sdk/node/m3-logger.ts:72-83 | An empty buffer sends nothing; otherwise the buffer is left empty and the whole of it, in order, becomes one batch in flight, or is counted lost when the Node.js URL parse throws; the same holds of sdk/ios/M3Logger.swift:77-85 |
| ClientBuffer.Logger.Tick | sdk/ios/M3Logger.swift:133-141 | A timer firing flushes exactly when some timer, held or stray, runs and the buffer is not empty; the flush sends the buffer, or loses it when the Node.js URL parse throws |
| ClientBuffer.Logger.Lose | sdk/node/m3-logger.ts:75-83 | After the buffer was cleared and `new URL` threw, its lines are counted lost, the buffer is empty and nothing is in flight |
| ClientBuffer.Logger.Complete | sdk/node/m3-logger.ts:97-113 | A transport error puts the batch back in front of the buffer; a 200 counts it delivered and a non-200 status counts it dropped; every line stays accounted for |
| ClientBuffer.Logger.Requeue | sdk/web/m3-logger.js:88-92 | The failed batch goes back ahead of everything logged since it was sent; the same holds of sdk/android/M3Logger.java:137-142 and sdk/ios/M3Logger.swift:92-99 |
| ClientBuffer.Logger.Deliver | sdk/node/m3-logger.ts:102-106 | A 200 answer removes the batch from those in flight and counts its lines as delivered |
| ClientBuffer.Logger.Drop | sdk/android/M3Logger.java:124-134 | A non-200 answer removes the batch from those in flight and counts its lines as dropped; the buffer is untouched |
| ClientBuffer.Logger.Close | sdk/node/m3-logger.ts:122-127 | `close` stops the timer the logger holds, leaves stray timers running, and then flushes, leaving the buffer empty: the batch is in flight, or lost when the Node.js URL parse throws |
| ClientBuffer.RequeueAccounts | sdk/node/m3-logger.ts:109-113 | Moving a batch from in flight to the front of the buffer keeps every logged line accounted for |
| ClientBuffer.DeliverAccounts | sdk/node/m3-logger.ts:102-106 | Counting a batch as delivered keeps every logged line accounted for |
| ClientBuffer.DropAccounts | sdk/ios/M3Logger.swift:116-118 | Counting a batch as dropped keeps every logged line accounted for |
| ClientBuffer.LogWaits | sdk/node/m3-logger.ts:62-66 | A log that leaves the buffer below the batch size only appends its line |
| ClientBuffer.ExampleStart | sdk/node/example.js:4-9 | Illustration: after `init(5)` and two logs, both lines wait in the buffer in order |
| ClientBuffer.ExampleFirstBatch | sdk/node/example.js:5-12 | Illustration: with batch size 5, the fifth log sends the five lines as one batch, in order, and empties the buffer |
| ClientBuffer.ExampleRun | sdk/node/example.js:4-19 | Illustration: the sixth log waits until `close` sends it alone, and a second `close` sends nothing |
| ClientBuffer.OneBatchInFlight | sdk/web/m3-logger.js:70-79 | Illustration: after one log and a flush, the single line is the one batch in flight and the buffer is empty |
| ClientBuffer.RequeueKeepsOrder | sdk/web/m3-logger.js:88-92 | Illustration: when a send fails and a line is logged meanwhile, the next flush sends the failed line first and then the new one |
| ClientBuffer.SecondInitLeaksTimer | sdk/node/m3-logger.ts:33-42 | Illustration: after `init`, `init` and `close`, a line logged below the batch size is still sent by the next tick, because the first timer was never stopped |
| ClientBuffer.BadEndpointLosesBatch | sdk/node/m3-logger.ts:72-83 | Illustration: a Node.js logger with batch size 1 whose endpoint does not parse logs one line; nothing is buffered or in flight, and the line is lost |
| ClientBuffer.RejectedBatchIsDropped | sdk/android/M3Logger.java:124-134 | Illustration: a batch answered with a non-200 status is not sent again |

## Left out

- HTTP plumbing is not modelled: routing, CORS, `OPTIONS`, static files, `readBody`, JSON parsing and serialisation, and server start and stop. A handler receives the decoded `log`, `logs` and `source` fields. A request whose `logs` field is missing, which makes `data.logs.map` throw, is not modelled. Nor is a single-log request without a string `log` field: `parseLogLine` then throws a `TypeError` on `split`, and the answer is 400 with that error's message rather than "Invalid log format".
- SQLite is not modelled beyond the table's contents. This covers the `CREATE TABLE` statement and its indexes. (The inline `INDEX` clauses of src/database.js are not valid SQLite.) It also covers `prepare`, `run` and `all`. A failing insert is a parameter (`fault`).
- `created_at DEFAULT CURRENT_TIMESTAMP` is a parameter (`createdAt`).
- ClientBuffer.Logger.Flush: the `TypeError` that `new URL` throws in the Node.js SDK is not modelled, only its effect on the buffer. It reaches the caller of `log` or `close`; thrown from the timer it is an uncaught exception. The same holds of `Log`, `Tick` and `Close`, which flush.
- Storage.LogDatabase.InsertLogBatch: the whole batch gets one `createdAt`. SQLite evaluates `CURRENT_TIMESTAMP` once per `stmt.run` (src/database.ts:92), so rows of one batch may carry different times.
- `executeCustomQuery`, the `GET /api/query` handler (including its `parseInt` of `limit`), and `close` of the database are not modelled. They are raw SQL and I/O.
- SQLite `LIKE` matching, including its ASCII case-insensitivity, and JavaScript `RegExp` compilation and matching are parameters (`Matchers.like`, `Matchers.compiles`, `Matchers.test`).
- Clocks are parameters: `new Date()`, `toISOString`, `toTimeString`, `SimpleDateFormat` and `DateFormatter` give the `date` and `time` arguments of `Log`. The cutoff arithmetic of `deleteOldLogs` gives its `cutoff` argument.
- Timers are not modelled. `setInterval`, `setTimeout`, `scheduleCleanup`, Java `Timer` and Swift `Timer` become the `timerActive` and `strayTimers` fields and a `Tick` method. The web SDK's `beforeunload` flush and the Swift `deinit` are the same calls as `Flush` and `Close`. Each web `init` adds one more `beforeunload` listener; the second and later ones flush an empty buffer and send nothing.
- Threads and locks are not modelled. Each `synchronized` or `NSLock` region is one method step, and the send's completion is a separate `Complete` call. Interleavings of a completion with other steps are not modelled.
- The network is not modelled. `http.request`, `fetch`, `HttpURLConnection` and `URLSession` become `pending` plus an outcome the caller of `Complete` chooses.
- Storage.LogDatabase.QueryLogs: SQLite leaves the order of rows with equal date and time unspecified. The model fixes one: such rows come back in reverse table order (`Ordering.TiesReversed`).
- ClientBuffer.Logger.Complete: every HTTP status ends the batch. On Android a non-200 answer without an error body makes `getErrorStream()` return null. The resulting exception then requeues the batch, and the model does not capture that.
- ClientBuffer.Logger.constructor: JavaScript replaces only an `undefined` source with the default, so a `null` source stays `null`. The model replaces any missing source.
- The web SDK's `String(content)` coercion is not modelled: content is always a string here.
- Integer widths are not modelled: `batchCount` and `limit` are unbounded integers. A `limit` that is `NaN` behaves like a missing one.
- src/index.js (environment configuration and signal handling) is not part of this model.
