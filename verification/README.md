# lidb, modelled and proved

lidb is a small database with a query language in front of it and a package registry on
top. A liq statement is parsed, lowered to qualified SQL with numbered placeholders,
rewritten to unqualified SQL with `?`, and executed by a catalog that scans the SQL text
for keywords, parentheses, commas and quotes. The catalog keeps its tables in a snapshot
file; each insert also appends to a write-ahead log and to a changefeed; the registry
publishes package versions through it, one command-line call per statement.

The project models that whole path on strings of characters, with the scanners as they
are, and proves what the path promises, or, where the code does not keep the promise,
the exact condition under which it does.

## Layout

| file | part |
|---|---|
| Text | string primitives, keyword search over blank-separated words, numerals |
| LiqParser, LiqPrinter | liq parser and its print/parse theorems |
| Catalog, ShippedCatalog, Liq, Compiler, Lowering | allowlist, syntax tree, lowering, emitted text |
| Flatten | the three SQL rewriters |
| Native, NativeCatalog | the text executor as functions, and the object with its loops |
| Pipeline, ReadPipeline, Meaning, EndToEnd | compiled SQL means what the statement means |
| ReadOrder | ORDER BY and LIMIT as asked for, against what is returned |
| StdMap, Snapshot | key order of `std::map`, snapshot printer and reader |
| Wal, Changefeed, EventTable, Engine | log framing, hub and interleavings, one open session |
| Transport, Bridge, SourceCalls | process boundary, one bridge call, liq text called through it |
| PyFloat | the ASCII texts that Python's `float` reads |
| Registry, RegistryPlans, RegistryStore, RegistryRuns, RegistryLimits | registry service, its plans, its runs, and where its promises end |
| RegistryVersionPlan | the plan that compares two columns |
| SqlLexer, SqlParser | SQL lexer and statement parser |
| Audit, BufferPool | hash-chained log, page pool |

A `string` is a sequence of characters. In the C++ parts a character stands for one byte
of a `std::string`; character classes are those of the C locale.

## Where the code and its promises differ

- LIMIT and ORDER BY are compiled and never applied. A read returns what its clauses ask
  for if the matching rows already stand in that order, are no more than the limit and do
  not confuse case; only if, too, but for the order where its column is not returned
  (`ReadIsAsIntendedExactly`; `OrderIsIgnored` and `LimitIsIgnored` give inputs).
- Select names are compared with lower-cased keys, so a table may return a column that
  was not named; reads mean what they say exactly for tables that do not confuse case
  (`CompiledReadMeansRead`). Compiled inserts write only lower-case keys.
- A constant in an INSERT is stored as the text `%s`, and a repeated parameter makes the
  insert do nothing; an insert means what it says if and only if neither occurs
  (`CompiledInsertMeansInsertExactly`).
- A catalog survives its own snapshot if and only if it is durable cell by cell
  (`SnapshotRoundTrip`); a value with `|` is cut into fields at the next load
  (`SavedRowsReload`).
- Registry values. The store keeps every row as it was sent if and only if no value that
  reaches it holds `|` and none that its reading plan selects holds `"` or `\`
  (`EveryRunExactly`); then names are unique, references hold and records are found
  forever, and a read raises only when it is refused (`ReadsRaiseOnlyWhenRefused`).
  Otherwise, whatever uuids are drawn: a name with `|` is never found again, so every publish stores
  another publisher, and two as `x|name=y` are both called `y` (`StoredNameIsFoundExactly`,
  `TwoPublishersOfOneName`); a second publish as `a","id":"EVIL-1` is answered with the id
  `EVIL-1` that no publisher has, and its version refers to nobody (`ReferenceToNobody`);
  one version with the tree digest `a"b` makes every later read of its package raise, so
  a record that was found is lost (`QuoteHidesThePackage`).
- A failed snapshot write leaves the row in memory, unreported and unlogged; while the
  tables are durable, reopening restores memory exactly when no such row is pending
  (`ReopenRestoresRows`, `UnwrittenRowIsLost`).
- The event of an insert names the table it wrote for keywords in one case with one blank
  behind them, for lower case only while no upper-case `INTO ` occurs anywhere in the text
  (`PlainInsertIsNamed`, `LowerCaseEventIsMisled`, `MixedCaseIsUnknown`); for compiled
  inserts it always does.
- The bridge's parameter reader drops backslashes and does not decode escapes, so a
  parameter arrives unchanged exactly when it is printable ASCII (`ParamsRoundTrip`).
- The result printer writes no escapes (`ResultRoundTrip`, `CallRead`).
- Of a WHERE with two comparisons only the first is read. The plan for one version of a
  package picks the row asked for if and only if the package has no other version
  (`VersionIsAnsweredExactly`); the service does not use it.
- No registry record names its publisher, because the plan does not select the column
  (`PublisherIsNeverReported`).
- A DELETE's text may go on after its predicate, `UPDATE` in capitals is rejected although
  the other verbs may be, and an earlier `desc` stays in force for a later `order`.
- Log numbers restart at 1 for each writer (`ReopeningConcatenatesRuns`). A writer does not
  repair a torn tail: one stray byte behind the last whole record hides everything
  appended later (`StrayByteHidesTheRest`). So does a header torn within its first eight
  bytes (`TornHeaderHides`), except that behind exactly its magic the next frame's magic
  is read as a length (`TornAtMagic`); a header torn later, or a torn payload, swallows
  the bytes appended next (`TornHeaderSwallows`, `TornPayloadSwallows`).

## Model

| member | source | states |
|---|---|---|
| Text.TrimView | engine/native_catalog.cpp:17-21 | the two trimming loops strip exactly the white space at both ends |
| Text.FindWord | engine/native_catalog.cpp:188-197 | in blank-separated words, the keyword search finds the first inner word equal to the keyword and nothing else |
| Text.ReadDecimalPrints | engine/native_catalog.cpp:223-223 | a printed count reads back as itself |
| LiqParser.ProjectionLoop | liq/parser.py:140-148 | the projection loop takes the columns up to the first closing brace, trailing commas dropped |
| LiqParser.ParseReadTokens | liq/parser.py:127-179 | the clause loop of a read computes the clause semantics, including every rejection |
| LiqParser.ParseBindings | liq/parser.py:114-124 | the binding loop reads the comma-separated parts cut at their first colon |
| LiqParser.SetBindings | liq/parser.py:196-202 | the SET loop collects bindings up to WHERE or RETURNING and rejects the rest |
| LiqParser.UpdateClauses | liq/parser.py:203-218 | the last WHERE wins and RETURNING takes all remaining tokens |
| LiqParser.ParseUpdateTokens | liq/parser.py:192-221 | an update needs its fixed head and at least one binding |
| LiqParser.ParseSource | liq/parser.py:240-256 | interpolation and semicolons are rejected before anything else, then the verb decides |
| LiqPrinter.ReadTextIsParsed | liq/parser.py:138-171 | a read with any list of clauses, repeated or not, parses to their effects in order, the last of a kind winning |
| LiqPrinter.ClauseOrderIsFree | liq/parser.py:138-171 | reads whose clauses are permutations of each other parse to the same statement |
| LiqPrinter.PrintParse | liq/parser.py:106-256 | every canonical statement parses back from its printed form, and is rejected exactly when the text is forbidden |
| LiqPrinter.DeleteIgnoresTheRest | liq/parser.py:224-237 | tokens after a DELETE's predicate are accepted without effect |
| LiqPrinter.OnlyUpdateMindsItsCase | liq/parser.py:193-193 | a capitalised UPDATE is rejected, a capitalised READ is not |
| LiqPrinter.DirectionIsInherited | liq/parser.py:154-161 | the text `order a desc order b` parses to an order by b, descending |
| Catalog.ResolvedTableIsClean | liorm/catalog.py:84-98 | every table that resolves is a clean name in schema public |
| Catalog.ResolvedColumnIsClean | liorm/catalog.py:101-107 | every column that resolves is a clean name of the resolved table |
| Liq.FirstUses | liq/compiler.py:45-52 | the collected names are distinct and are exactly the names used |
| Liq.Put | liq/compiler.py:115-115 | assigning a schema key keeps its place or appends it |
| Compiler.LowerInsertStmt | liq/compiler.py:103-119 | the insert loop with its counter emits the lowered text and schema, stopping at the first unknown column |
| Compiler.LowerUpdateStmt | liq/compiler.py:122-146 | the update loop emits the lowered text and schema |
| Compiler.CollectParams | liq/compiler.py:45-67 | the nested collectors yield the parameter names in order of first use |
| Compiler.SchemaKeysAreFirstUses | liq/compiler.py:114-115 | a schema's keys are the collected names, in order |
| Compiler.OrderedParamsOfDistinct | liorm/execute.py:47-50 | for distinct names the ordered values are the values of the uses in textual order |
| Compiler.PlaceholderDiscipline | liq/compiler.py:80-158 | of every statement that compiles, the placeholders read $1 to $k, the schema's keys are the collected names, and there are as many keys as placeholders exactly when no parameter repeats |
| Lowering.LoweringEmits | liq/compiler.py:70-77 | what compiles names only clean columns, and its text is the qualified text of the statement |
| Lowering.CompiledFlattens | engine/embedded.cpp:24-37 | all three rewriters, alone or one on top of another, turn compiled SQL into the statement's unqualified text |
| Flatten.FlattenCatalogSql | engine/embedded.cpp:24-37 | the engine's rewriter with its pop_back loop |
| Flatten.PlainTextIsFixed | sql/parser/registry_parse.cpp:10-21 | text without double quotes and dollar signs only loses its tail |
| Flatten.FlatteningIsHomomorphic | liorm/embed_engine.py:52-55 | on any rendering of well-formed pieces the regex passes shorten names and slots and nothing else, and the passes of bridge, engine and parser agree |
| Native.TrimSqlOfTrimmed | engine/native_catalog.cpp:130-137 | trimming a statement twice changes nothing |
| NativeEngine.SplitTopLevelCommas | engine/native_catalog.cpp:23-39 | the quote-aware splitting loop |
| NativeEngine.TrimStatement | engine/native_catalog.cpp:130-137 | the loop over trailing semicolons |
| NativeEngine.SplitCsv | engine/native_catalog.cpp:139-152 | the bar splitting loop gives one field more than there are bars |
| NativeEngine.SkipParens | engine/native_catalog.cpp:275-282 | the depth loop stops behind the matching parenthesis or at the end |
| NativeEngine.ParseFields | engine/native_catalog.cpp:67-72 | the field loop of the snapshot reader |
| NativeEngine.PrintRow | engine/native_catalog.cpp:84-90 | the field loop prints a row's cells in key order with bars between |
| NativeEngine.PrintRows | engine/native_catalog.cpp:83-91 | the row loop prints one line a row |
| NativeEngine.BootstrapIsDurable | engine/native_catalog.cpp:110-122 | the bootstrap catalog survives its own snapshot |
| NativeEngine.NativeCatalog.ReplaySnapshot | engine/native_catalog.cpp:52-76 | the reader loop computes the tables of the file, and reports whether there are any |
| NativeEngine.NativeCatalog.LoadOrCreate | engine/native_catalog.cpp:46-50 | a missing or empty file is an empty catalog |
| NativeEngine.NativeCatalog.SaveSnapshot | engine/native_catalog.cpp:78-94 | the file is rewritten with the printed tables, or left alone when it does not open |
| NativeEngine.NativeCatalog.PersistRow | engine/native_catalog.cpp:96-108 | the row is appended to the file, behind a header if it is its table's only row |
| NativeEngine.NativeCatalog.ApplyBootstrapSchema | engine/native_catalog.cpp:110-122 | five tables, one migration row, saved |
| NativeEngine.NativeCatalog.Project | engine/native_catalog.cpp:246-259 | the column loops keep exactly the wanted columns, compared in lower case |
| NativeEngine.NativeCatalog.ProjectionColumns | engine/native_catalog.cpp:228-239 | the select list as lower-case column names |
| NativeEngine.NativeCatalog.WhereClause | engine/native_catalog.cpp:195-215 | only the first conjunct is read, and an unbound `?` ends the call |
| NativeEngine.NativeCatalog.SelectRows | engine/native_catalog.cpp:241-261 | the row loop returns the matching rows, projected, in order, without those left empty |
| NativeEngine.NativeCatalog.ExecSelect | engine/native_catalog.cpp:173-263 | rows, counts and the table entry that a SELECT creates |
| NativeEngine.NativeCatalog.Bind | engine/native_catalog.cpp:300-314 | the binding loop consumes one parameter for each `?` and gives up when they run out |
| NativeEngine.NativeCatalog.ScanInsert | engine/native_catalog.cpp:265-299 | the scanning half of an insert with its early returns |
| NativeEngine.NativeCatalog.ExecInsert | engine/native_catalog.cpp:265-319 | one row appended to one table, saved, and reported only if the save worked |
| NativeEngine.NativeCatalog.Exec | engine/native_catalog.cpp:165-171 | result, tables and file after any statement |
| NativeEngine.SelectOnlyTouches | engine/native_catalog.cpp:217-217 | a SELECT affects no row and at most enters an empty table |
| NativeEngine.ExecChangesAtMostOneTable | engine/native_catalog.cpp:315-318 | a statement appends one row to one table or leaves every table's rows alone |
| NativeEngine.SnapshotFollowsMemory | engine/native_catalog.cpp:165-171 | if the file gives back the rows in memory before a statement, it does after it, while tables stay durable |
| Pipeline.ParseAnyInsert | engine/native_catalog.cpp:269-299 | the scanner reads back table, columns and value list whatever the case of the keywords |
| Pipeline.QuotedInsertStores | engine/native_catalog.cpp:265-319 | an INSERT of quoted values without quotes and parentheses stores exactly the quoted texts, commas included |
| Pipeline.ParseInsertText | engine/native_catalog.cpp:269-299 | the scanner reads back the table, columns and values an INSERT was written from |
| Pipeline.BindLowered | engine/native_catalog.cpp:300-314 | binding a lowered insert succeeds exactly when the parameters suffice, and gives each column its own |
| Pipeline.ExecLoweredInsert | engine/native_catalog.cpp:265-319 | executing a lowered insert appends the bound row or does nothing |
| ReadPipeline.ExecSelectOfRead | engine/native_catalog.cpp:173-263 | the keyword scans cut a SELECT into its own table, columns and first comparison, whatever words without keywords follow |
| ReadPipeline.ExecLoweredRead | engine/native_catalog.cpp:173-263 | executing a lowered read filters and projects its table, ORDER BY and LIMIT notwithstanding |
| Meaning.ProjectionIsExact | engine/native_catalog.cpp:250-257 | a projection is the set of named columns exactly when no key differs from a named one only in case |
| Meaning.ProjectedCells | engine/native_catalog.cpp:250-257 | the column loop keeps at least the named columns, and no more exactly when no key differs from a named one only in case |
| Meaning.CompiledReadRuns | liq/compiler.py:80-100 | the compiled text of any read, flattened and executed over any tables, filters and projects its table and stores nothing |
| Meaning.CompiledReadMeansRead | liq/compiler.py:80-100 | over any tables, that returns exactly the rows the read means, in insertion order, if and only if no selected row has a key that differs from a projected one only in case |
| Meaning.LowerKeyedIsExact | engine/native_catalog.cpp:250-257 | tables with lower-case keys, as compiled inserts write them, meet that condition |
| Meaning.LimitIsIgnored | engine/native_catalog.cpp:200-201 | a read limited to one row returns two |
| ReadOrder.SortIsInOrder | liq/compiler.py:95-97 | the order that the clause asks for: the sorted rows stand in it, for any total way to compare cells |
| ReadOrder.SortIsStable | liq/compiler.py:95-97 | rows that compare alike keep their order |
| ReadOrder.SortPermutes | liq/compiler.py:95-97 | the sorted rows are the same rows |
| ReadOrder.FilteredAsIntended | engine/native_catalog.cpp:195-261 | the row loop returns the filtered, ordered, projected and limited rows if the matching rows already stand in order, are few enough and do not confuse case; the last two are needed always, the order wherever its column is returned |
| ReadOrder.ReadIsAsIntendedExactly | liq/compiler.py:95-99 | the same for every compiled read, over any tables and any total way to compare cells |
| ReadOrder.OrderIsIgnored | engine/native_catalog.cpp:195-226 | `read agent_runs order id desc` over the ids 1 and 2 returns 1 before 2; texts compared character by character are one of the comparisons meant |
| ReadOrder.HiddenOrderMayAgree | engine/native_catalog.cpp:246-259 | where the order column is not returned, rows out of order may give the same result |
| Meaning.CompiledInsertAppends | liq/compiler.py:103-119 | the compiled text of any insert appends the stored row for arbitrary values, or does nothing when a parameter repeats |
| Meaning.StoredIsMeantExactly | liq/compiler.py:116-117 | the stored row is the meant row if and only if every constant is the text `%s` |
| Meaning.CompiledInsertMeansInsertExactly | liq/compiler.py:103-119 | an insert with distinct fields means what it says if and only if no parameter repeats and no other constant occurs |
| Meaning.RepeatedParameterInsertsNothing | liq/compiler.py:109-115 | two fields bound to one parameter, with any clean allowlist that lists them: nothing is stored |
| Meaning.ConstantIsStoredAsMarker | liq/compiler.py:117-117 | a constant is stored as `%s`, with any clean allowlist that lists the column |
| ShippedCatalog.ShippedAllowlistIsClean | liorm/catalog.py:7-76 | the shipped allowlist meets the hypothesis of the pipeline theorems |
| ShippedCatalog.ShippedLookups | liorm/catalog.py:8-10 | it lists the tables and columns that the counterexamples name |
| Meaning.InsertThenRead | engine/native_catalog.cpp:241-261 | over any tables, a read after an insert without repeated parameters returns what it returned before, and behind it what the new row contributes |
| Meaning.CompiledWritesDoNothing | engine/native_catalog.cpp:165-171 | compiled updates and deletes are executed to no effect |
| EndToEnd.PrintedCompiles | liq/compiler.py:166-181 | the printed form of a statement compiles to what the statement lowers to |
| EndToEnd.SourceReadMeansRead | liq/compiler.py:166-181 | liq text of a read, its clauses in any order, returns the rows the read means if and only if the table does not confuse case |
| EndToEnd.SourceInsertMeansInsert | liq/compiler.py:166-181 | liq text of an insert stores the row it means under the exact condition |
| SourceCalls.CallIsRun | liorm/embed_engine.py:77-88 | one bridge call of any compiled statement is one run of it on the values that arrive |
| SourceCalls.SourceReadCalled | liorm/execute.py:53-87 | liq text of a read, its clauses in any order, compiled and executed through the bridge over any table: the file stays, and a call that is not refused answers with the decoded shown rows, which are the shown rows if and only if none needs an escape, and are the rows meant for the values that arrived if and only if no selected row confuses case |
| SourceCalls.SourceInsertCalled | liorm/execute.py:53-87 | liq text of an insert with distinct fields, compiled and executed through the bridge: refused, or failed with the file as it was if the file does not open or a parameter repeats; otherwise it reports success, and the next load finds the meant row appended if and only if the tables were durable, there are fields, no value holds a bar and no constant but `%s` occurs |
| Snapshot.SplitUnlines | engine/native_catalog.cpp:59-59 | lines without newlines are read back as written |
| Snapshot.ParsePrintedRow | engine/native_catalog.cpp:67-72 | a printed row with clean cells parses back |
| Snapshot.RowLineIffReadAsRow | engine/native_catalog.cpp:60-61 | a row's line is read as a row unless it is empty or its first key looks like a comment or a header |
| Snapshot.ReadTables | engine/native_catalog.cpp:52-76 | reading printed tables whose lines are read as rows adds each of them with its rows reloaded and leaves the last one current |
| Snapshot.SavedRowsReload | engine/native_catalog.cpp:52-94 | what a save and a load make of any catalog of one-line rows that are read as rows: every row cut at its bars anew, nothing else |
| Snapshot.SavedAppendReloads | engine/native_catalog.cpp:52-94 | one more such row in a durable catalog: only it can come back as another |
| Snapshot.AppendComesBack | engine/native_catalog.cpp:52-94 | tables loaded from a file come back with some row appended only if they are durable and that row is clean |
| Snapshot.ReadTablesAreReadable | engine/native_catalog.cpp:52-76 | no file, whatever it says, yields unclean names or cells or a row without a table |
| Snapshot.ReadingAddsAtMostTheRowLines | engine/native_catalog.cpp:59-74 | reading never yields more rows than there are row lines |
| Snapshot.SnapshotRoundTrip | engine/native_catalog.cpp:52-94 | replaying what was saved restores the catalog if and only if it is durable |
| Snapshot.PersistRowAgreesWithSave | engine/native_catalog.cpp:96-108 | appending a row equals rewriting the file if and only if the row is its table's first or its table is the last in the file |
| Snapshot.BarIsCut | engine/native_catalog.cpp:143-147 | a value with a bar does not come back |
| Wal.LittleEndianRoundTrip | engine/native_exec.cpp:6-9 | a number comes back from its bytes exactly when it fits them |
| Wal.WalWriter.Append | engine/wal.cpp:8-17 | one frame behind the old bytes, numbered with the counter, whatever the padding |
| Wal.FrameIsRead | engine/include/lidb/wal.hpp:7-8 | a frame in front is read as its record, whatever follows |
| Wal.SegmentIsRead | engine/wal.cpp:8-17 | a reader of header then length bytes recovers exactly the appended records |
| Wal.SegmentIsInjective | engine/wal.cpp:8-17 | equal segments hold equal records |
| Wal.AppendAddsOneRecord | engine/wal.cpp:11-14 | an append adds exactly its record if and only if the payload's length fits 32 bits |
| Wal.PrefixReadsAsPrefix | engine/wal.cpp:13-15 | any prefix of any bytes reads as a prefix of the records |
| Wal.TornTail | engine/wal.cpp:13-15 | from a torn segment exactly the records whose frames are whole are read |
| Wal.StrayByteHidesTheRest | engine/wal.cpp:4-6 | any one byte behind whole records: no frame appended later is read |
| Wal.TornPayloadSwallows | engine/wal.cpp:13-14 | a frame torn behind its header, anywhere in its payload, takes the bytes appended next as the rest of it |
| Wal.TornHeaderHides | engine/wal.cpp:13-13 | a header torn within its first eight bytes, but for exactly four: no frame appended later is read |
| Wal.TornAtMagic | engine/wal.cpp:13-13 | a header torn behind exactly its magic: what a reader makes of any frame appended next, namely nothing until 0x4C494457 bytes more are there, and then one payload of that length if the low length byte is a record type |
| Wal.TornHeaderSwallows | engine/wal.cpp:13-13 | a header torn behind its type byte, anywhere up to its end, takes the missing header bytes and its payload from whatever is appended next |
| Wal.SwallowedRecordIsForeign | engine/wal.cpp:13-14 | when those bytes are a frame and the payload does not go on with its first byte, the record read is one that nobody appended |
| Wal.ReopeningConcatenatesRuns | engine/include/lidb/wal.hpp:16-16 | a reopened segment is a concatenation of runs numbered from 1, and cutting at each 1 gives the runs back |
| Wal.ReopenedNumbersRepeat | engine/include/lidb/wal.hpp:16-16 | after a reopen a number names two records |
| Wal.AppendU32 | engine/native_exec.cpp:6-9 | four bytes, lowest first |
| Wal.EncodeHeapInsert | engine/native_exec.cpp:21-28 | the payload built step by step is the two length-prefixed blocks |
| Wal.HeapInsertRoundTrip | engine/native_exec.cpp:11-28 | the payload is decodable if and only if both lengths fit 32 bits |
| Wal.HeapInsertIsInjective | docs/changefeed.md:85-89 | different inserts have different payloads |
| Changefeed.Hub.Subscribe | engine/changefeed.cpp:24-29 | the next id, appended at the end |
| Changefeed.Hub.Unsubscribe | engine/changefeed.cpp:31-37 | exactly the subscriptions of the id go, in place |
| Changefeed.Hub.PollJsonLine | engine/changefeed.cpp:59-65 | the oldest line, removed |
| Changefeed.Hub.AttachUnixClient | engine/changefeed.cpp:44-49 | negative descriptors are refused |
| Changefeed.Hub.DetachUnixClient | engine/changefeed.cpp:51-57 | exactly the descriptor goes |
| Changefeed.Hub.FanoutJson | engine/changefeed.cpp:82-101 | clients whose write was incomplete go, the others stay in place |
| Changefeed.Hub.PublishLocked | engine/changefeed.cpp:68-77 | the matching callbacks in subscription order and one line queued |
| Changefeed.Hub.Publish | engine/changefeed.cpp:67-80 | each matching callback is called once with the event |
| Changefeed.Hub.OnWalAppend | engine/changefeed.cpp:39-42 | an append is published as its event |
| Changefeed.PolledThenQueuedIsLocked | engine/changefeed.cpp:59-80 | in every interleaving polled lines then queued lines are the published events in lock order |
| Changefeed.DeliveredOnceToEachMatch | engine/changefeed.cpp:67-80 | in every interleaving an event's deliveries and pending calls make up exactly the subscriptions matching at its locked step, in order |
| Changefeed.FinishedMeansAllHeard | engine/changefeed.cpp:78-78 | a publisher has finished exactly when all of them were called |
| Changefeed.IdsAreCountedUp | engine/changefeed.cpp:26-28 | ids count up over every run and live ids ascend, so none is reused |
| Changefeed.UnsubscribedHearsNothingNew | engine/changefeed.cpp:31-37 | no event locked after an unsubscribe is ever delivered to its id |
| Changefeed.UnsubscribeDoesNotStopFlights | engine/changefeed.cpp:78-78 | a publisher already past its lock may still call an unsubscribed callback |
| Changefeed.LsnOfLine | engine/changefeed.cpp:103-108 | the number in a line is the event's |
| Changefeed.PolledOrderIsLockOrder | engine/changefeed.cpp:59-80 | polled numbers strictly increase exactly as far as the lock was taken in that order |
| EventTable.ExtractTable | engine/embedded.cpp:11-20 | the second table scan with its pop_back loop |
| EventTable.CatalogTable | engine/native_catalog.cpp:269-274 | the catalog's table name read off the untrimmed text |
| EventTable.EventNamesWrittenTable | engine/embedded.cpp:11-20 | under the hypothesis that both scans find the keyword at one place, the event names the written table if and only if no further blank follows it |
| EventTable.UpperCaseInsertIsNamed | engine/embedded.cpp:13-19 | text starting with upper-case keywords and one blank: the event names the written table |
| EventTable.LowerCaseInsertAgreesExactly | engine/embedded.cpp:13-15 | text starting with lower-case keywords: both scans agree if and only if no upper-case `INTO ` occurs anywhere in it |
| EventTable.LowerCaseInsertIsNamed | engine/embedded.cpp:13-19 | then, with one blank, the event names the written table |
| EventTable.LowerCaseEventIsMisled | engine/embedded.cpp:13-15 | for `insert into t (a) values ('INTO x')` the row goes to t and the event names `x')` |
| EventTable.CompiledInsertIsNamed | engine/embedded.cpp:103-110 | the event of every compiled insert names the written table |
| EventTable.KeywordCaseIsIgnored | engine/native_catalog.cpp:268-269 | the catalog stores the same row whatever the case of the keywords |
| EventTable.MixedCaseIsUnknown | engine/embedded.cpp:13-15 | with mixed-case keywords the row is stored and the event says unknown |
| Engine.EveryRunIsConsistent | engine/embedded.cpp:103-110 | over every run of a session: one no-op, then one heap insert for each reported insert; event k has the number of record k + 1 and the table cut from the text of the k-th reported insert, for which the catalog stored a row; wal_lsn is the last number |
| Engine.OnlyInsertsReport | engine/native_catalog.cpp:315-318 | a reported statement is an insert, and its row is appended to the table the catalog cut from its text |
| Engine.EventsNameWrittenTables | engine/embedded.cpp:103-110 | event k names the table the catalog wrote the k-th reported row to, wherever that text has its keywords in one case, one blank behind them, and for lower case no upper-case `INTO ` |
| Engine.NumbersCountUp | engine/wal.cpp:12-12 | below 2^64 the numbers are exactly 1 to n and events increase |
| Engine.AffectedIsZeroOrOne | engine/embedded.cpp:108-108 | no statement reports more than one row |
| Engine.SegmentHoldsTheRun | engine/embedded.cpp:58-59 | the reader of the segment gets the session's records behind those of earlier sessions |
| Engine.StoringIgnoresFile | engine/native_catalog.cpp:315-318 | what is stored does not depend on the file, only what is reported |
| Engine.ReopenRestoresRows | engine/embedded.cpp:41-74 | for runs whose tables in memory are durable, closing and opening restores the rows in memory if and only if no stored row is still unsaved |
| Engine.UnwrittenRowIsLost | engine/embedded.cpp:41-74 | one insert while the snapshot cannot be written: its row is in memory and gone after reopening |
| Engine.NativeExecutor.Insert | engine/native_exec.cpp:30-35 | one log record and one event with the same number |
| Engine.EmbeddedDatabase.OpenDatabase | engine/embedded.cpp:41-64 | the snapshot loaded and a no-op logged, or nothing when open already |
| Engine.EmbeddedDatabase.Close | engine/embedded.cpp:66-74 | the parts are dropped and the status reset |
| Engine.EmbeddedDatabase.Migrate | engine/embedded.cpp:76-81 | bootstrap exactly when there is no migration row |
| Engine.EmbeddedDatabase.ExecParameterized | engine/embedded.cpp:103-110 | every call is one step of the session, with its log record, queue line and callbacks |
| Transport.ReadParamsJson | engine/cli/embed_main.cpp:11-23 | the character loop with its buffer and flag |
| Transport.ParamsArriveAs | engine/cli/embed_main.cpp:11-23 | what any dumped list arrives as, character by character |
| Transport.ParamsRoundTrip | liorm/embed_engine.py:82-85 | parameters arrive unchanged if and only if every character is printable ASCII |
| Transport.ExecResultJson | engine/embedded.cpp:83-101 | the result printer's loops |
| Transport.ResultRoundTrip | engine/embedded.cpp:83-101 | a JSON reader gets rows and count back if and only if no key or value needs an escape |
| Bridge.BoundValuesAreNotInTheText | liorm/execute.py:65-80 | no bound value occurs in the SQL text |
| Bridge.RowOfCells | liorm/embed_engine.py:88-88 | a decoded object is the printed row |
| Bridge.RowsDecodeExactly | liorm/embed_engine.py:88-88 | the decoded rows are the printed rows if and only if no key and no value needs an escape |
| Bridge.CallRead | liorm/embed_engine.py:77-88 | over any file, a bridge read leaves it alone and answers with what is decoded of the filtered rows: with those rows if and only if they are plain |
| Bridge.ArrivesExactly | engine/cli/embed_main.cpp:17-20 | bars, quotes and backslashes arrive exactly as sent, and nothing else arrives as one of them or as a newline |
| Bridge.NewRowExactly | engine/native_catalog.cpp:300-314 | the received row is durable if and only if no value holds a bar, and plain if and only if none holds a quote or backslash |
| Bridge.CallInsert | liorm/embed_engine.py:77-88 | over any file: fails and changes nothing, or reports success, and the next load finds exactly the received row appended if and only if the tables were durable and no value holds a bar; over durable tables it finds the reloaded row |
| PyFloat.DecimalFractionIsRead | registry/service.py:173-173 | every decimal fraction, as `str` prints a float of ordinary size, is read |
| Registry.SelectFlattens | registry/plans.py:19-26 | the reading plans' texts flatten to the reads they stand for |
| Registry.InsertFlattens | registry/plans.py:48-59 | the inserting plans' texts flatten to the inserts they stand for |
| Registry.RegistryOltp.RunPlan | registry/service.py:159-161 | one checked call of the bridge |
| Registry.RegistryOltp.GetPackageVersion | registry/service.py:60-71 | the first row of the version, found by the loop |
| Registry.RegistryOltp.ListPackageVersions | registry/service.py:73-90 | the records in order, yanked ones left out on request |
| Registry.RegistryOltp.EnsurePublisherId | registry/service.py:125-135 | get or create a publisher, with every exit |
| Registry.RegistryOltp.EnsurePackageId | registry/service.py:137-157 | get or create a package, with every exit |
| Registry.RegistryOltp.PublishPackageVersion | registry/service.py:92-123 | publish with every place it can stop |
| RegistryPlans.PublisherByNameText | registry/plans.py:79-85 | the plan text, word by word |
| RegistryPlans.PackageByNameText | registry/plans.py:20-26 | the plan text, word by word |
| RegistryPlans.VersionsForPackageText | registry/plans.py:38-46 | the plan text, word by word |
| RegistryPlans.InsertPackageText | registry/plans.py:48-59 | the plan text, word by word |
| RegistryPlans.InsertPackageVersionText | registry/plans.py:60-78 | the plan text, word by word |
| RegistryPlans.InsertPublisherText | registry/plans.py:86-92 | the plan text, word by word |
| RegistryVersionPlan.VersionByPackageAndVersionText | registry/plans.py:27-37 | the plan text, word by word |
| RegistryVersionPlan.SecondComparisonIsIgnored | engine/native_catalog.cpp:200-212 | any reading plan with two comparisons joined by AND, over any file: it refuses a value its text contains, or answers from all rows that meet the first, whatever the second and the LIMIT ask for |
| RegistryVersionPlan.VersionIsAnsweredExactly | registry/plans.py:27-37 | the plan for one version of a package answers from at most that version's first row, as asked, if and only if the package has at most one row and it is of this version |
| RegistryStore.ExecuteRead | liorm/execute.py:53-87 | a read plan leaves the file alone, and refuses a value its text contains or answers from the tables: with the stored rows if and only if they are plain |
| RegistryStore.ExecuteInsert | liorm/execute.py:53-87 | an insert plan is accepted if and only if the file opens and no value occurs in its text; otherwise nothing changes; accepted, it appends exactly the received row if and only if the tables were durable and no value holds a bar |
| RegistryStore.WriteExactly | registry/service.py:101-119 | over kept tables, an accepted insert is stored as received and read back by its reading plan if and only if no value holds a bar and none that the plan selects holds a quote or backslash; then the tables stay kept |
| RegistryRuns.EnsurePublisherKeeps | registry/service.py:125-135 | get-or-create, with a uuid drawn (printable is all that is asked): what it inserts is kept as sent if and only if it is safe; then the invariant holds after it, no other table changes, and the id returned is one of a publisher of that name |
| RegistryRuns.EnsurePackageKeeps | registry/service.py:137-157 | the same for packages |
| RegistryRuns.PublishKeeps | registry/service.py:92-123 | its inserts are kept as sent if and only if each is safe; then a publish keeps the invariant wherever it stops and returns what a read then answers |
| RegistryRuns.EveryRunExactly | registry/service.py:92-157 | over every run from a store that meets the invariant: all inserted rows are kept as sent if and only if all are safe (no bar in a value that reaches the store, no quote or backslash in one that its reading plan selects); then names are unique, versions refer to existing packages and publishers and have a numeric coverage, and rows are only appended; drawn ids are printable and coverages are texts that `float` reads, as uuids and printed floats are |
| RegistryRuns.SafeRequestsSuffice | registry/service.py:92-103 | a check on the arguments alone makes every write of a run safe: no bar, quote or backslash in any argument, quotes and backslashes allowed in the public key |
| RegistryRuns.FoundForever | registry/service.py:60-71 | a version once found is found with the same record after every further run whose writes are safe |
| RegistryRuns.RepeatedPublishReadsFirst | registry/service.py:120-123 | a repeated publish of safe writes that succeeds returns the first record |
| RegistryRuns.FirstPublishWins | registry/service.py:105-123 | a publish of safe writes that succeeds, of a version not there before and with a package id not in use, returns a record made of its own values |
| RegistryRuns.ReadsRaiseOnlyWhenRefused | registry/service.py:60-71 | over a store that meets the invariant a read raises if and only if the check for values in the plan text refuses the name or the id found for it: no JSON, no coverage and no missing column can make it raise |
| RegistryRuns.ReadsLeaveFile | registry/service.py:60-90 | reading never changes the file, whatever is stored |
| RegistryRuns.PublisherIsNeverReported | registry/service.py:174-174 | no record names a publisher |
| RegistryRuns.MigratedStoreIsOk | engine/native_catalog.cpp:110-122 | the store after migration satisfies the invariant |
| RegistryLimits.BarIsNeverFound | registry/service.py:126-128 | whatever the file holds, a value with a bar is looked up in vain |
| RegistryLimits.StoredNameIsFoundExactly | registry/service.py:125-135 | after get-or-create of a publisher succeeds, its name is found if and only if it holds no bar, for any id and key without bars |
| RegistryLimits.TwoPublishersOfOneName | registry/service.py:125-135 | whatever two uuids are drawn, two calls for `x|name=y` store two publishers called `y` |
| RegistryLimits.ReferenceToNobody | registry/service.py:103-119 | whatever uuids are drawn, after two publishes as `a","id":"EVIL-1` a version row refers to no publisher |
| RegistryLimits.QuoteHidesThePackage | registry/service.py:60-71 | after a publish with the tree digest `a"b` every read of the package raises, of any version, although one had found a record before; whatever uuids are drawn |
| SqlLexer.Lexer.Get | sql/parser/lexer.cpp:14-17 | one character, NUL at the end |
| SqlLexer.Lexer.SkipSpace | sql/parser/lexer.cpp:19-28 | exactly the blanks |
| SqlLexer.Lexer.ReadNumber | sql/parser/lexer.cpp:50-63 | digits, and a dot with the digits behind it |
| SqlLexer.Lexer.ReadIdentOrKw | sql/parser/lexer.cpp:65-86 | the longest word, classified without regard to case |
| SqlLexer.Lexer.ReadQuoted | sql/parser/lexer.cpp:136-153 | the quoted-literal loop |
| SqlLexer.Lexer.PutBack | sql/parser/lexer.cpp:88-88 | the slot is set |
| SqlLexer.Lexer.Next | sql/parser/lexer.cpp:90-158 | the put-back token, or the next one with its position |
| SqlLexer.NextThenPutBack | sql/parser/lexer.cpp:88-95 | taking a token and putting it back leaves the remaining stream as it was |
| SqlLexer.FewTokens | sql/parser/lexer.cpp:90-98 | the end is reached within length + 1 calls |
| SqlLexer.TokensTile | sql/parser/lexer.cpp:90-158 | token spans and blanks tile the input, each token being what is scanned where it starts |
| SqlLexer.TokenTextIsItsSpan | sql/parser/lexer.cpp:136-157 | a token's text is its span, a literal's its span unquoted |
| SqlLexer.QuotedLiteralRoundTrip | sql/parser/lexer.cpp:136-153 | a literal with doubled quotes is read back if and only if it holds no NUL |
| SqlLexer.DoubleQuoteIsOneToken | sql/parser/lexer.cpp:155-157 | a double quote is a token of its own |
| SqlParser.ParseList | sql/parser/registry_parse.cpp:36-41 | the list loop reads items up to the parenthesis and ends on every input |
| SqlParser.ParseInsertWith | sql/parser/registry_parse.cpp:29-51 | the insert branch |
| SqlParser.ParseSelectWith | sql/parser/registry_parse.cpp:56-76 | the select branch with its put-back |
| SqlParser.ParseRegistryStatement | sql/parser/registry_parse.cpp:23-77 | the parser over the lexer object computes the grammar on its token stream |
| SqlParser.ValuesBack | sql/parser/registry_parse.cpp:44-49 | a list of literals is read back if and only if none holds a NUL |
| SqlParser.PrintParse | sql/parser/registry_parse.cpp:23-77 | a statement whose printed text the flattener leaves alone is read back if and only if no value holds a NUL |
| SqlParser.PlainValuesPrintParse | sql/parser/registry_parse.cpp:23-77 | the same under a check on the values: no double quote and no dollar sign in them |
| Audit.AppendOnlyAuditLog.Append | liorm/audit.py:63-85 | earlier entries stay, and the log verifies exactly if it did |
| Audit.AppendOnlyAuditLog.VerifyChain | liorm/audit.py:90-107 | the loop accepts exactly the logs whose entries carry their position, predecessor and digest |
| Audit.PrefixVerifies | liorm/audit.py:90-107 | a truncated log still verifies |
| Audit.OneHeadOneLog | liorm/audit.py:34-52 | two verified logs with one head are equal entry for entry, or two of their entries collide under the digest |
| Audit.TamperingIsRejected | liorm/audit.py:90-107 | without a collision, any other log under a kept head is rejected |
| BufferPool.Pool.Pin | engine/buffer_pool.cpp:7-17 | a resident page is returned as it is, a new one zeroed, a full pool refuses, and no other page is touched |
| BufferPool.Pool.Unpin | engine/buffer_pool.cpp:18-24 | exactly the page goes; no other page moves or changes |
| BufferPool.Pool.PinnedCount | engine/include/lidb/buffer_pool.hpp:15-15 | the number of resident pages is the size of the map the two vectors stand for |
| BufferPool.ZipErase | engine/buffer_pool.cpp:21-23 | erasing one index from both vectors removes one key of the map they stand for |
| BufferPool.RepinnedPageIsZero | engine/buffer_pool.cpp:11-12 | a page that was written, let go and pinned again is zeroed |

## Left out

- Sockets, `write`, the accept loops and the C handle layer: operating-system calls; which clients accepted a line is a parameter of `FanoutJson`.
- Interleavings of `fanout_json` with attach and detach: the list maintenance is proved for one call.
- Files, fsync and directories: a file is a text or byte sequence, with a flag for whether it opens.
- Subprocesses, builds, session globals, locks and temporary directories of the bridge; the newline behind a printed result.
- Threads: the hub's mutex is modelled by its atomic steps; the bridge's lock by one call after another.
- General regular expressions: only the identifier patterns and numbered slots, as scanners; `\d` and `isdigit` on non-ASCII digits.
- `redact_query_log`, SHA-256, canonical JSON and clocks: the digest and the time are parameters.
- Plan ids, the IR dictionaries and `stmt_to_ir`; `register_plan`'s dictionary.
- uuid generation: the ids a publish would draw are part of its arguments; freshness is asked for only where it is needed.
- `float`: which ASCII texts it reads is modelled, with its `ValueError`; a coverage value stays its text, and non-ASCII digits and blanks are not read.
- `exec_sql`, the plain `exec` command and their text output.
- The page file (`engine/heap.cpp`) and the pool inside `open`, including its exception for a pool without pages.
- Migrations, row-level security and JWT settings: SQL for an engine that is not in the repository.
- Executing UPDATE and DELETE: the catalog does not; that they do nothing is proved.
- `read_string` of the SQL lexer: no input reaches it.
- JSON values other than the result object's shape, and lone surrogates, are rejected by the modelled reader.
- EventNamesWrittenTable: for texts where both scans find the keyword at the same place; elsewhere names may agree by coincidence.
- PrintParse: names and constants without white space and commas, as the tokenizer cuts there.
- FirstPublishWins: for a package id not in use, as uuids are; `EnsurePublisherKeeps` and the run theorems ask that drawn ids are printable and coverages are texts that `float` reads.
- ReadIsAsIntendedExactly: where the order column is not returned, the order is not shown to be needed; `HiddenOrderMayAgree` shows why.
- ReopenRestoresRows: for tables durable in memory; what others come back as is `SavedRowsReload`.
- Machine layout: little-endian, 64-bit, with seven undetermined padding bytes in the log header.
