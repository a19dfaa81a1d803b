# ydb-importer core, modelled in Dafny

ydb-importer copies tables from a JDBC source database into YDB. This
project models the three parts of it that hold its logic. The surrounding
I/O is replaced by parameters.

- **ValueConverter**: `chooseMode` and `convertValue`, with their helpers.
  - `chooseMode` is the decision table that picks a conversion mode from a
    target column type and a `java.sql.Types` source code.
  - `convertValue` is the per-field conversion that runs by that mode.
  - The helpers are `str2bool`, `date2int` (YYYYMMDD as a Java int) and
    `date2str` (`y/mm/dd`).
- **LoadDataTask**: the per-table copy, as a class whose methods update its
  fields.
  - `buildMainIndex` binds target members to result-set columns.
  - `convert` fills an all-Void member array, plus the synthetic key.
  - `calcSynthKey` builds the separator-delimited accumulator that is hashed.
  - `copyData` sends a batch whenever it reaches `maxBatchRows`, flushes the
    blob saver, sends the remainder and finishes.
  - `call` turns all of this into the load task's outcome.
  - The lazily created blob saver is modelled too.
- **YdbImporter**: the outcome loops of `retrieveSourceMetadata`,
  `createMissingTables` and `loadTableData`.
  - `adjustTargetStructure` makes every column optional.
  - `WorkerFactory` names each thread after a per-factory counter, which
    wraps as a Java `int`.

Supporting modules:

- `Wrappers`: Option and Result.
- `Text`: `Integer.toString`, `%d` and `%02d` with ASCII digits, and their parsers.
- `YdbTypes`: YDB types with the optional wrapper, values, and Java `int`
  wrap-around.
- `Jdbc`: type codes, fields as the results of their typed getters, result
  sets.
- `Tables`: `TableDecision` and `TargetTable` as classes.
- `Batching`: the batch arithmetic of `copyData`.

Errors that the Java code throws are `Err` values of `ValueConverter.Failure`.
Each loop over future results takes the sequence of task outcomes as a
parameter, in submission order.

## Model

| member | source | states |
|---|---|---|
| ValueConverter.ChooseMode | src/main/java/ydb/importer/target/ValueConverter.java:26-116 | the unwrap loop strips every optional layer of member ixTarget's type, so the mode is the decision table on the innermost type and column ixSource's type code |
| ValueConverter.ModeIgnoresOptional | src/main/java/ydb/importer/target/ValueConverter.java:28-30 | wrapping a target type in any number of optional layers leaves the chosen mode (or error) unchanged |
| ValueConverter.ModeFor | src/main/java/ydb/importer/target/ValueConverter.java:34-115 | a decimal target always gets DECIMAL; a chosen mode produces values of the target type and is never BLOB_STREAM, BLOB_OBJECT or TS_STR; it fails exactly for an unsupported primitive or for a kind that is neither decimal nor primitive, with the matching error |
| ValueConverter.BoolMode | src/main/java/ydb/importer/target/ValueConverter.java:40-56 | a Bool target gets INT2BOOL exactly for the seven numeric source codes, STR2BOOL exactly for the four character codes, and BOOL for every other code |
| ValueConverter.PrimitiveMode | src/main/java/ydb/importer/target/ValueConverter.java:37-112 | the primitive switch fails exactly on the types without a case, reporting that type; it never yields a blob mode or TS_STR |
| ValueConverter.PrimitiveModeServes | src/main/java/ydb/importer/target/ValueConverter.java:39-106 | each primitive case returns a mode whose values have exactly that primitive type |
| ValueConverter.PrimitiveModeAbsorbs | src/main/java/ydb/importer/target/ValueConverter.java:57-104 | a DATE_* mode is chosen exactly for a DATE source into Int32/Int64/Uint32/Uint64/Text; a TS_* mode exactly for a TIMESTAMP source into Date/Int64/Uint64; every other source gets the plain mode |
| ValueConverter.ConvertValue | src/main/java/ydb/importer/target/ValueConverter.java:127-190 | convertValue: a null field gives Void, the two blob modes hand off to convertBlob, every other mode reads its getter; its contract is stated by ConvertValueBlob, ConvertValueTyped, ConvertValueFails and ChosenModeFitsColumn |
| ValueConverter.ConvertValueBlob | src/main/java/ydb/importer/target/ValueConverter.java:127-136 | a null field gives Void in every mode, blob modes included; a present field goes to convertBlob exactly in the two blob modes |
| ValueConverter.ConvertValueTyped | src/main/java/ydb/importer/target/ValueConverter.java:137-187 | a present field converts to a value of the mode's target type |
| ValueConverter.ConvertValueFails | src/main/java/ydb/importer/target/ValueConverter.java:137-189 | conversion fails exactly for TS_STR, which has no case, or when the getter the mode reads throws, and the error says which |
| ValueConverter.ChosenModeFitsColumn | src/main/java/ydb/importer/target/ValueConverter.java:26-187 | a mode chosen for a column converts any present field to a value of the column's innermost type, or of the fixed Decimal(22,9) for a decimal column, and never to a blob hand-off |
| ValueConverter.IntToBoolZeroOnly | src/main/java/ydb/importer/target/ValueConverter.java:141-142 | INT2BOOL gives false exactly for 0 and true for every other int; it fails only when getInt throws |
| ValueConverter.StringToBool | src/main/java/ydb/importer/target/ValueConverter.java:193-207 | str2bool is true exactly when the value is non-null and its first character above U+0020 is not N, 0, F, Cyrillic EN or EL in either case |
| ValueConverter.Trim | src/main/java/ydb/importer/target/ValueConverter.java:196 | String.trim drops the characters at or below U+0020 at both ends; its contract is stated by TrimFirst |
| ValueConverter.TrimFirst | src/main/java/ydb/importer/target/ValueConverter.java:196-199 | trim leaves nothing exactly when no character is above U+0020; otherwise the trimmed text starts with the first such character |
| ValueConverter.StringToBoolFalseExamples | src/main/java/ydb/importer/target/ValueConverter.java:193-207 | null, "", blanks, "n", "N", "0", "f", " false" and "нет" are false |
| ValueConverter.StringToBoolTrueExamples | src/main/java/ydb/importer/target/ValueConverter.java:193-207 | "1", "yes" and "true" are true |
| ValueConverter.DateToInt | src/main/java/ydb/importer/target/ValueConverter.java:209-212 | date2int as a Java int; its contract is stated by DateToIntDecodes |
| ValueConverter.DateToString | src/main/java/ydb/importer/target/ValueConverter.java:214-217 | date2str as "%d/%02d/%02d" with ASCII digits; its contract is stated by DateStringRoundTrip |
| ValueConverter.DateToIntDecodes | src/main/java/ydb/importer/target/ValueConverter.java:209-212 | for years 0 to 214748 the Java int does not wrap, and /10000, /100 % 100 and % 100 give back year, month and day |
| ValueConverter.DateStringRoundTrip | src/main/java/ydb/importer/target/ValueConverter.java:214-217 | parsing "y/mm/dd" back gives the original year, month and day for every date, negative years included |
| ValueConverter.DateEncodingExample | src/main/java/ydb/importer/target/ValueConverter.java:209-217 | 2021-03-05 becomes 20210305 and "2021/03/05" |
| Tables.FindColumn | src/main/java/ydb/importer/LoadDataTask.java:120-125 | findColumn returns a column of that name from the metadata, and none exactly when no column has that name |
| LoadDataTask.SourceColumns | src/main/java/ydb/importer/LoadDataTask.java:112-115 | every name in the map points at a 1-based position in the result set whose column carries that name |
| LoadDataTask.MapSourceColumns | src/main/java/ydb/importer/LoadDataTask.java:112-115 | the first loop of buildMainIndex builds exactly the map SourceColumns describes |
| LoadDataTask.SourceColumnsLastWins | src/main/java/ydb/importer/LoadDataTask.java:112-115 | the map's names are exactly the result-set column names, and a repeated name maps to its last position |
| LoadDataTask.IndexEntry | src/main/java/ydb/importer/LoadDataTask.java:116-151 | a binding made for member j targets j and reads a column inside the result set |
| LoadDataTask.IndexEntryRules | src/main/java/ydb/importer/LoadDataTask.java:116-151 | a member is skipped exactly when it is the synthetic key, is missing from the metadata or the result set, or is a blob without an aux table; a blob binding gets BLOB_OBJECT or BLOB_STREAM by blobAsObject and the path of its aux table; any other binding gets chooseMode's mode and no path; the only failure is chooseMode's |
| LoadDataTask.CollectShape | src/main/java/ydb/importer/LoadDataTask.java:116-152 | the pass keeps every binding in member order with strictly increasing targets, and fails exactly when some entry failed |
| LoadDataTask.MainIndexShape | src/main/java/ydb/importer/LoadDataTask.java:110-153 | the index holds exactly the bindings of the members that are not skipped, each once and in increasing target order, with positions inside the member array and the result set; it fails exactly when chooseMode fails for some member |
| LoadDataTask.LoadDataTask.IndexMember | src/main/java/ydb/importer/LoadDataTask.java:117-151 | one pass of the member loop yields IndexEntry for that member |
| LoadDataTask.LoadDataTask.BuildMainIndex | src/main/java/ydb/importer/LoadDataTask.java:110-153 | the index is cleared and then rebuilt to exactly MainIndex, whatever it held before; otherwise it returns chooseMode's error |
| LoadDataTask.LoadDataTask.MakeBlobSaver | src/main/java/ydb/importer/LoadDataTask.java:180-185 | an existing saver is returned unchanged, and a new one is made only when none exists, so there is at most one per task; the saved blobs stay as they were |
| LoadDataTask.LoadDataTask.FlushBlobSaver | src/main/java/ydb/importer/LoadDataTask.java:187-190 | a flush is logged exactly when a saver exists |
| LoadDataTask.BlobSaver.SaveBlob | src/main/java/ydb/importer/LoadDataTask.java:195 | the blob is appended to the saver's records, and the id is the one for its position |
| LoadDataTask.LoadDataTask.ConvertBlob | src/main/java/ydb/importer/LoadDataTask.java:192-204 | openStream reads the binary stream for BLOB_STREAM and the Blob object's stream otherwise; a stream that opens is saved as the next blob and its id returned; a failed stream saves nothing |
| LoadDataTask.OpenStream | src/main/java/ydb/importer/LoadDataTask.java:200-204 | openStream: the binary stream for BLOB_STREAM, the Blob object's stream otherwise, none where the getter throws; its use is stated by ConvertFieldRules and ConvertBlob |
| LoadDataTask.ConvertField | src/main/java/ydb/importer/LoadDataTask.java:166-168 | convertValue as the load task runs it, with convertBlob for the blob modes; its contract is stated by ConvertFieldRules |
| LoadDataTask.LoadDataTask.ConvertBinding | src/main/java/ydb/importer/LoadDataTask.java:166-168 | one binding's value and saved blobs are exactly those of ConvertField |
| LoadDataTask.ConvertFieldRules | src/main/java/ydb/importer/LoadDataTask.java:166-172 | a binding yields a blob exactly for a present field in a blob mode whose stream opens, with the saver's next id; any other success is convertValue's value; any failure is convertValue's or the stream's |
| LoadDataTask.FillHoldsConversions | src/main/java/ydb/importer/LoadDataTask.java:164-173 | because targets increase strictly, a later binding never overwrites an earlier one, so every bound member holds its own binding's conversion (for a blob, an Int64; which id, FillBlobHeld states) |
| LoadDataTask.FillLeavesUnboundVoid | src/main/java/ydb/importer/LoadDataTask.java:164-165 | a member that no binding targets keeps the Void it was filled with |
| LoadDataTask.FillBlobStep | src/main/java/ydb/importer/LoadDataTask.java:192-197 | a blob binding that converts stores the next blob id in its member and appends the blob its stream holds |
| LoadDataTask.FillBlobFirst | src/main/java/ydb/importer/LoadDataTask.java:192-197 | right after a blob binding, its member holds the id of the blob saved from its stream |
| LoadDataTask.FillOther | src/main/java/ydb/importer/LoadDataTask.java:166-168 | a binding on another member leaves this member alone and only appends blobs |
| LoadDataTask.FillBlobHeld | src/main/java/ydb/importer/LoadDataTask.java:164-197 | in a row that converts, a blob binding's member holds the id the saver handed out for the blob saved from that binding's stream |
| LoadDataTask.FillFailureNamesColumn | src/main/java/ydb/importer/LoadDataTask.java:166-172 | a failure is the first failing binding's own error, re-raised under that binding's member name; no earlier binding failed and no blob was saved after the ones before it |
| LoadDataTask.ConvertRow | src/main/java/ydb/importer/LoadDataTask.java:162-178 | convert yields one value per target member; the rest of its contract is stated by ConvertRowShape and ConvertRowFailure |
| LoadDataTask.ConvertRowShape | src/main/java/ydb/importer/LoadDataTask.java:162-178 | a converted row has one value per member: unbound members other than the synthetic key are Void, bound members hold their conversions, a blob member holds the id the saver handed out for the blob saved from its stream, and the synthetic-key member holds the key of the row |
| LoadDataTask.ConvertRowFailure | src/main/java/ydb/importer/LoadDataTask.java:166-176 | convert fails on its first failing binding, with that binding's own error under its member's name, or, when every binding converted, on a synthetic-key position outside the array |
| LoadDataTask.LoadDataTask.FillMembers | src/main/java/ydb/importer/LoadDataTask.java:164-173 | starting from the Void-filled array, the member array and the saved blobs end as Fill says, stopping at the first failure |
| LoadDataTask.LoadDataTask.FillOne | src/main/java/ydb/importer/LoadDataTask.java:167-172 | one pass of the loop takes the array and blobs from Fill's state for k bindings to its state for k + 1, or ends with Fill's failure |
| LoadDataTask.LoadDataTask.Convert | src/main/java/ydb/importer/LoadDataTask.java:162-178 | the result and the saved blobs are exactly ConvertRow's, with the key set after the bindings |
| LoadDataTask.LoadDataTask.CalcSynthKey | src/main/java/ydb/importer/LoadDataTask.java:225-237 | the key is keyOf applied to the accumulator: each non-blob column's text, "" for null, followed by U+0002, in result-set order |
| LoadDataTask.AccumulatorReadsTexts | src/main/java/ydb/importer/LoadDataTask.java:226-234 | the accumulator depends only on the non-blob columns' texts: blob values do not count, and null and "" contribute the same |
| LoadDataTask.AccumulatorInjective | src/main/java/ydb/importer/LoadDataTask.java:226-234 | when no text contains U+0002, equal accumulators mean equal texts in every non-blob column |
| LoadDataTask.SeparatorInValueCollides | src/main/java/ydb/importer/LoadDataTask.java:226-234 | without that premise two rows with different texts get the same key: ("a" + U+0002, "") and ("a", U+0002) |
| LoadDataTask.ConvertRows | src/main/java/ydb/importer/LoadDataTask.java:94-100 | converting every row without failure gives one member array per row, each as wide as the struct |
| LoadDataTask.BatchSize | src/main/java/ydb/importer/LoadDataTask.java:93-96 | the batch size in effect is maxBatchRows, or 1 for a limit of 0, since a one-row batch already reaches it |
| Batching.BatchShape | src/main/java/ydb/importer/LoadDataTask.java:93-100 | every batch sent in the loop has exactly m rows, the remainder has fewer than m, and together they are the rows in order |
| Batching.SubmissionCounts | src/main/java/ydb/importer/LoadDataTask.java:93-106 | n rows give n / m full batches, plus one of n % m rows when that is non-zero; every submission has 1 to m rows, and they concatenate to the rows |
| Batching.SubmissionExamples | src/main/java/ydb/importer/LoadDataTask.java:93-106 | five rows in batches of two go out as [1,2], [3,4], [5]; no rows give no batch |
| LoadDataTask.BatchAdvance | src/main/java/ydb/importer/LoadDataTask.java:95-99 | adding a row to the pending batch, and sending it once it holds maxBatchRows rows, keeps the log and the batch in step with Batch |
| LoadDataTask.LoadDataTask.Enqueue | src/main/java/ydb/importer/LoadDataTask.java:95-99 | the log and the pending batch stay in step with Batch after one more row |
| LoadDataTask.LoadDataTask.CopyRow | src/main/java/ydb/importer/LoadDataTask.java:94-100 | one row moves conversions, blobs and batches from ConvertRows for i rows to i + 1 rows, or ends with ConvertRows' failure for all rows and sends nothing more |
| LoadDataTask.LoadDataTask.CopyRows | src/main/java/ydb/importer/LoadDataTask.java:93-100 | after the row loop, the log holds the full batches of the converted rows and the pending batch holds the remainder; the blobs are the conversions' blobs |
| LoadDataTask.LoadDataTask.FinishCopy | src/main/java/ydb/importer/LoadDataTask.java:102-107 | the flush (only when a saver exists) comes before the non-empty remainder, which comes before finish |
| LoadDataTask.LoadDataTask.CopyIndexed | src/main/java/ydb/importer/LoadDataTask.java:93-107 | a failed row stops the copy after the batches already sent; otherwise the log grows by exactly Schedule, and the result reports whether the writes succeeded |
| LoadDataTask.LoadDataTask.CopyData | src/main/java/ydb/importer/LoadDataTask.java:87-108 | an index or capacity failure sends nothing; otherwise the copy is as CopyIndexed states for the index MainIndex gives |
| LoadDataTask.ScheduleSubmitsEveryRow | src/main/java/ydb/importer/LoadDataTask.java:93-107 | a completed copy hands every converted row to the executor exactly once |
| LoadDataTask.LoadDataTask.constructor | src/main/java/ydb/importer/LoadDataTask.java:48-56 | a new task keeps its table, its target and the settings, whose convertValue is ValueConverter's; the main table path is the database path, "/" and the target's full name; the index and the log are empty and there is no blob saver |
| LoadDataTask.LoadDataTask.Call | src/main/java/ydb/importer/LoadDataTask.java:58-80 | an invalid table, checked first, then a failed one, gives Out(false, 0) and touches neither the log nor the saver; otherwise success holds exactly when every row converts and the writes succeed, and a success reports all rows of the result set |
| YdbImporter.Relax | src/main/java/ydb/importer/YdbImporter.java:201-204 | a column type comes out optional, with the same innermost type: unchanged when already optional, wrapped exactly once otherwise |
| YdbImporter.RelaxColumns | src/main/java/ydb/importer/YdbImporter.java:199-205 | the loop fills the map that Relaxed describes |
| YdbImporter.RelaxedKeys | src/main/java/ydb/importer/YdbImporter.java:199-205 | every column name becomes a key of the map |
| YdbImporter.RelaxedLast | src/main/java/ydb/importer/YdbImporter.java:199-205 | each key maps to the relaxed type of the last column of that name |
| YdbImporter.AdjustTargetStructure | src/main/java/ydb/importer/YdbImporter.java:198-207 | the table's fields become StructType.of applied to the relaxed map of the description |
| YdbImporter.AdjustedStructure | src/main/java/ydb/importer/YdbImporter.java:198-207 | the member names are exactly the existing table's column names, each once; every member is optional and has the type of the last column of its name, unchanged when already optional and wrapped once otherwise |
| YdbImporter.SucceededMembers | src/main/java/ydb/importer/YdbImporter.java:138-150 | the kept tables are exactly those with a successful outcome, and there are no more of them than outcomes |
| YdbImporter.RetrieveSourceMetadata | src/main/java/ydb/importer/YdbImporter.java:138-150 | the list is refilled with the tables whose outcome succeeded, in submission order; a table is failed exactly when it was before or some outcome for it failed; its metadata is that of its last successful outcome, and a table with no successful outcome keeps its old metadata |
| YdbImporter.FailedAfterMeans | src/main/java/ydb/importer/YdbImporter.java:139-149 | after the outcomes are read, a table's failure flag is set exactly when it was set before or some outcome for that table failed |
| YdbImporter.MetadataAfterLast | src/main/java/ydb/importer/YdbImporter.java:139-143 | a table's metadata ends as that of its last successful outcome, even when later outcomes for it failed |
| YdbImporter.MetadataAfterNoSuccess | src/main/java/ydb/importer/YdbImporter.java:139-149 | only a successful outcome calls setMetadata, so a table with none keeps the metadata it had |
| YdbImporter.BlobListMembers | src/main/java/ydb/importer/YdbImporter.java:179-181 | the blob targets are submitted in key order, one per key |
| YdbImporter.KeyListingCount | src/main/java/ydb/importer/YdbImporter.java:179 | values() yields one target per entry of the blob-target map |
| YdbImporter.SubmittedShape | src/main/java/ydb/importer/YdbImporter.java:176-183 | failed tables submit nothing; every other table submits one creation per blob target plus one for its main target, and nothing else is submitted |
| YdbImporter.SubmittedComplete | src/main/java/ydb/importer/YdbImporter.java:176-183 | the main target and every blob target of each table that has not failed are submitted |
| YdbImporter.SubmitCreations | src/main/java/ydb/importer/YdbImporter.java:175-183 | the submission loop yields exactly Submitted |
| YdbImporter.SuccessesBound | src/main/java/ydb/importer/YdbImporter.java:184-188 | there are no more successes than outcomes, and as many exactly when all outcomes succeeded |
| YdbImporter.ApplyCreation | src/main/java/ydb/importer/YdbImporter.java:186-193 | a success is counted and, when the table existed, its structure is adopted; a failure marks the owning table failed; nothing else changes |
| YdbImporter.FailedAfterCreationsMeans | src/main/java/ydb/importer/YdbImporter.java:184-194 | after the creation outcomes a table is failed exactly when it was before or some failed outcome belongs to one of its targets |
| YdbImporter.FieldsAfterLast | src/main/java/ydb/importer/YdbImporter.java:186-190 | a target ends with the relaxed structure of its last outcome that adopts an existing table |
| YdbImporter.FieldsAfterNoAdoption | src/main/java/ydb/importer/YdbImporter.java:184-194 | a target with no adopting outcome keeps the fields it had |
| YdbImporter.ApplyCreations | src/main/java/ydb/importer/YdbImporter.java:184-194 | the count is the number of successes; a table is failed exactly when it was before or a creation of one of its targets failed; a target takes the relaxed structure of its last adopting outcome, and a target with no such outcome keeps its fields |
| YdbImporter.CreateMissingTables | src/main/java/ydb/importer/YdbImporter.java:170-196 | the submissions are Submitted of the tables as they were; the success count is at most the number of submissions; the failure flags and structures are as ApplyCreations states |
| YdbImporter.PendingMembers | src/main/java/ydb/importer/YdbImporter.java:214-218 | exactly the tables without the failure flag are submitted for loading |
| YdbImporter.LoadTableData | src/main/java/ydb/importer/YdbImporter.java:209-233 | the submissions are the tables that had not failed, in order; with none it stops there; the count is the number of successful loads; a table is failed exactly when it was before or its load failed |
| YdbImporter.ThreadNamesDistinct | src/main/java/ydb/importer/YdbImporter.java:268-275 | among the first 2^32 threads, two threads never share a name |
| YdbImporter.NextNameFresh | src/main/java/ydb/importer/YdbImporter.java:268-275 | while fewer than 2^32 threads exist, the next name differs from every earlier one |
| YdbImporter.WrapStep | src/main/java/ydb/importer/YdbImporter.java:274 | incrementing the wrapped counter is the same as wrapping the incremented count |
| YdbImporter.WorkerFactory.constructor | src/main/java/ydb/importer/YdbImporter.java:261-265 | a new factory's counter starts at 0 and no thread has been made |
| YdbImporter.WorkerFactory.NewThread | src/main/java/ydb/importer/YdbImporter.java:268-276 | the n-th thread is named "YdbImporter-worker-" followed by n wrapped to a Java int; the counter moves on by exactly one (wrapping); while fewer than 2^32 threads exist, the name is new |

## Left out

- Floating point: FLOAT and DOUBLE values are opaque bit patterns, so float conversion is not modelled.
- Time: the Instant and time-zone behaviour behind DATETIME, TIMESTAMP, the TS_* modes and `java.sql.Date.toLocalDate`. A timestamp field carries its instant, epoch milliseconds and local date as given values, and dates are (year, month, day) triples.
- DECIMAL_ISSUE1, the startup probe of the SDK, is a boolean parameter. `DecimalType.newValue` on text or on a BigDecimal is an uninterpreted value; the text form is not parsed.
- The JDBC getters are per-field given results. A getter that throws is `None`. The two stream getters are functions in the load task's settings.
- ValueConverter.ConvertValue: `getObject` (ValueConverter.java line 129) and `getString` (lines 144, 180 and 184) are taken as total. A field is either null or present, and a present field's text is always there, so STR2BOOL, TEXT and DECIMAL under DECIMAL_ISSUE1 never fail in the model, although in Java those getters can throw.
- SHA-256, URL-safe Base64 and the ISO-8859-1 bytes are one uninterpreted function, `keyOf`. Only the accumulator is modelled. `synthDigest` and `base64Encoder` are lazy caches of those library objects and are not modelled.
- Internals that are not part of this model:
  - `BlobSaver`: only the sequence of saved blobs, plus the id function `blobIdOf`. Its batching, `maxBlobRows` flushing and `initCounter` offset are not modelled.
  - `YdbUpsertOp`: only a log of upserts, flushes and the finish. The outcome of the asynchronous writes is the parameter `writesOk`.
  - `RowCounter` and `ProgressCounter`.
- LoadDataTask.LoadDataTask.Call: the row count is the number of rows handed to the upsert executor. The model does not capture that RowCounter counts rows as writes complete.
- LoadDataTask.LoadDataTask.Call: opening the connection, the statement and the query is one `Result` parameter.
- LoadDataTask.LoadDataTask.CopyData: a source read failure after the query opened is not modelled. The result set is a complete list of rows, and every `getString` of calcSynthKey succeeds. In Java, `rs.getMetaData()` (line 90), `rs.next()` (line 94) or `rs.getString` (line 229) can throw after batches were sent; `call` then returns a failed Out with the rows counted so far, and `finish` is never reached.
- Tables.FindColumn: `TableMetadata.findColumn` is not part of this model. The model assumes it returns the first column whose name matches exactly, case-sensitive, and none otherwise. The skip rule of IndexEntryRules rests on that assumption.
- ValueConverter.DateToString: assumes the default locale prints ASCII digits. `String.format` uses the default format locale, and a locale with other digits (Persian, for example) would print them instead; DateStringRoundTrip holds only under that assumption.
- `YdbTableBuilder.build`, which `retrieveSourceMetadata` runs on each successful table, is not part of this model. Its effect on the target definition is not captured.
- YdbImporter.RetrieveSourceMetadata, CreateMissingTables and LoadTableData take the outcomes of the worker tasks as a parameter, in submission order. The executor, futures and worker threads are not modelled.
- YdbImporter.CreateMissingTables: the early return when the configuration has no target (line 172) is not modelled.
- YdbImporter.LoadTableData: the early return when the configuration has no target (line 210) is not modelled; the model always has a target connection.
- YdbImporter.CreateMissingTables requires every table that has not failed to have a main target, since the Java code would throw on a null one.
- YdbImporter.CreateMissingTables: the HashMap order of `getBlobTargets().values()` is a parameter, `blobKeys`.
- YdbImporter.AdjustTargetStructure: the member order of `StructType.of` is the SDK's. It is the function parameter `structOf`. AdjustedStructure assumes only that it lists each map entry once.
- `run`, `main`, `makeWorkers`, the connection pools, `dumpTableScripts` and pool shutdown are I/O and thread plumbing.
- YdbImporter.WorkerFactory.NewThread: the thread object, its daemon flag and the `BlobSaver.initCounter` call inside the runnable are not modelled. The runnable reads the counter when it runs, so that value depends on scheduling.
- LoadDataTask.LoadDataTask.Convert: `StructType.newValueUnsafe` is the member array itself.
