# ClickHouse write buffer, modelled in Dafny

`ClickhouseBuffer` collects rows for a ClickHouse table in a Node.js process.
`push(row)` normalises a row in place and serialises it as a one-line JSON array:

- Dates become Unix seconds.
- Booleans become 1 or 0.

The serialised rows are kept in memory. When `maxRowsInMemory` rows have gathered, the batch is detached and flushed on the next turn of the event loop. The flush (`rowsToFiles`) cuts the batch into segment files of at most `maxRowsPerFile` rows. Each segment file is named `<sortKey>_p<part>_r<rows>_b<bytes>[.<format>]`. The buffer keeps the staged names together with a counter of the rows they hold.

A load is triggered when a flush that asks for the check finds a condition met:

- `maxTime` milliseconds have passed since the last load, or
- `maxRows` rows are staged.

The whole list of staged names is then detached and handed to a load. An interval timer does the same for the rows in memory every `maxTime` milliseconds.

Three smaller parts complete the core:

- a retry helper with exponential back-off;
- a one-byte mutex;
- the static parser `getRowsInFiles`, which reads the row counts back out of segment names.

The model is written in Dafny:

| Module | Models | Form |
|---|---|---|
| `Buffer` | the buffer | a class with the source's fields and methods |
| `Segments` | the segment writer | a method over a `Disk` object |
| `Rows` | row formatting | an in-place loop over an `array` |
| `Retries` | the retry helper | a loop that records the calls and the waits |
| `Locking` | the mutex | a class over its one cell |
| `FileNames` | segment names and their parser | functions, plus the parser's loop as a method |
| `Strings`, `Utf8`, `Codec` | string splitting and joining, `Buffer.byteLength`, the compression tags | functions |

Timers become return values:

- `push` and the interval handler return the flush they schedule (`ScheduledFlush`).
- `flushToFiles` returns the load it schedules.

Clocks (`Date.now()`, `hrtime.bigint()`) are parameters.

The central invariant is `ClickhouseBuffer.Valid`. It says that every staged name carries its file's row count, and that `statsRowsInFiles` is the sum of those counts. Every method keeps it, and `RowsInFiles` proves that the counter equals what `getRowsInFiles` would parse from the names.

## Model

| member | source | states |
|---|---|---|
| Rows.ToInt32 | src/utils.ts:8 | the bitwise-or with zero gives a value in the signed 32-bit range that agrees with its operand modulo 2^32 |
| Rows.Seconds | src/utils.ts:8 | a Date's seconds are always a signed 32-bit number |
| Rows.SecondsTruncates | src/utils.ts:8 | within the 32-bit range, a Date's seconds are its millisecond time truncated toward zero, for negative times too |
| Rows.NormalizeRowAt | src/utils.ts:5-12 | each Date becomes its truncated seconds, each boolean 1 or 0, every other value stays, and no Date or boolean remains |
| Rows.NormalizeIdempotent | src/utils.ts:5-12 | normalising an already normalised row changes nothing |
| Rows.NormalizeRow | src/utils.ts:5-12 | the normalised row has the row's length; NormalizeRowAt states each position |
| Rows.Stringify | src/utils.ts:13 | the serialisation is a JSON array, from `[` to `]`; StringifyIsOneLine states that it is one line |
| Rows.StringifyIsOneLine | src/utils.ts:13 | a serialised row holds no newline, so it is one line of a JSONCompactEachRow segment |
| Rows.FmtRow | src/utils.ts:4-14 | `fmtRowJSON` (and its copy at src/index.ts:74-84) overwrites the caller's array with its normalisation and returns the JSON of the normalised row |
| Strings.Split | src/index.ts:151 | `split` always gives at least one piece, and no piece holds the separator |
| Strings.SplitJoin | src/rows_to_files.ts:40 | splitting a join on its separator gives back the pieces when none holds the separator |
| Strings.SplitAround | src/index.ts:151 | splitting around one separator gives the pieces of the left part followed by those of the right |
| Strings.JoinSnoc | src/rows_to_files.ts:40 | joining one more element adds one separator and the element at the end |
| Strings.JoinAvoids | src/rows_to_files.ts:40 | a character found neither in the elements nor as the separator is not in the join |
| Strings.NatToString | src/rows_to_files.ts:41 | the decimal rendering of a count is a non-empty run of digits |
| Strings.IntToString | src/rows_to_files.ts:30 | the rendering of an integer is digits, with a leading minus exactly for a negative one |
| Strings.ParseNatToString | src/index.ts:154 | `parseInt` of a rendered count gives the count back |
| Utf8.CharWidth | src/rows_to_files.ts:10 | each character takes one to four bytes |
| Utf8.EncodeCharWellFormed | src/rows_to_files.ts:10 | the octets of a character: the lead octet announces the width, the rest are continuation octets (section 3 of RFC 3629) |
| Utf8.ByteLengthIsEncodedLength | src/rows_to_files.ts:10 | `Buffer.byteLength` counts exactly the octets of the UTF-8 encoding |
| Utf8.ByteLengthBounds | src/rows_to_files.ts:10 | a string takes between one and four bytes per character |
| Utf8.ByteLengthAscii | src/rows_to_files.ts:10 | ASCII text takes one byte per character |
| Utf8.ByteLengthAppend | src/rows_to_files.ts:9-11 | byte lengths add over concatenation, which is what `calculateBytes` sums |
| Utf8.ByteLength | src/rows_to_files.ts:10 | `Buffer.byteLength`, the width of each character summed; ByteLengthIsEncodedLength ties it to the encoding |
| Codec.Tag | src/encoder_decoder.ts:10-14 | every format has a non-empty file-name tag |
| Codec.TagInjective | src/encoder_decoder.ts:10-14 | distinct formats have distinct tags |
| FileNames.FirstRowToken | src/index.ts:151-154 | the token returned matches `/^r\d+$/`, and there is none exactly when no token matches |
| FileNames.FirstRowTokenIsFirst | src/index.ts:151-154 | the token returned is in the list, and no earlier token matches: it is `parts[0]` of the filtered tokens |
| FileNames.ParseRowCount | src/index.ts:151-154 | the row count of one name: the digits of the first row token of the part before the first `.`, or none where `parts[0].slice` throws; its contract is stated by ParseTokens, ParseSegmentName and ParseRowCountMissing |
| FileNames.RowsInFiles | src/index.ts:148-158 | the sum of the row counts of all names, none if a name has no count; its contract is stated by RowsInFilesDefined, RowsInFilesAppend, RowCountsTotal and GetRowsInFiles |
| FileNames.TotalDefined | src/index.ts:150-157 | the sum of the counts exists exactly when every name has a count |
| FileNames.CountsAppend | src/index.ts:150-151 | the per-name counts of a concatenation are those of its halves, in order |
| FileNames.RowsInFilesAppend | src/index.ts:150-157 | the count of a concatenated list is the sum of the counts of its parts, and is missing if either is |
| FileNames.RowsInFilesDefined | src/index.ts:150-157 | a list of names has a total exactly when every name carries a row token |
| FileNames.RowCountsTotal | src/index.ts:150-157 | names whose parsed counts are known add up to the sum of those counts |
| FileNames.RowCountsAppend | src/index.ts:107 | appending names with known counts gives a list whose counts are the appended counts |
| FileNames.GetRowsInFiles | src/index.ts:148-158 | the parsing loop returns the sum of the row counts; on a name without a row token (where the source throws) it reports that name and its index, and every earlier name has a count |
| FileNames.ParseTokens | src/index.ts:151-154 | a name without `.` is read from its `_`-separated tokens: the digits of the first row token, or nothing |
| FileNames.RowsInFilesExample | tests/utils.test.ts:4-11 | the names `1_1_r1000`, `1_r100`, `1_1_r10_2` hold 1110 rows |
| FileNames.ParseRowCountMissing | src/index.ts:154 | a name without an `r<digits>` token has no row count, which is where the source's `parts[0].slice` throws |
| FileNames.SortKeyValid | src/rows_to_files.ts:30 | every sort key holds no `.` and no row token, whatever the clocks say |
| FileNames.NamePrefix | src/rows_to_files.ts:48 | the part of a name before its first `.` is the name without the compression suffix |
| FileNames.SegmentTokens | src/rows_to_files.ts:41-48 | a name's tokens are the sort key's, then `p<part>`, `r<rows>` and `b<bytes>` |
| FileNames.ParseSegmentName | src/rows_to_files.ts:41-48 | round trip: the parser reads back the row count the writer put into the name, compressed or not |
| FileNames.SortKey | src/rows_to_files.ts:30 | the sort key: wrapped Unix seconds, `_`, and the high-resolution time modulo 10^10; SortKeyValid states what the parser needs of it |
| FileNames.SegmentName | src/rows_to_files.ts:41-48 | the name of a part; SegmentTokens and ParseSegmentName state how the parser reads it |
| Segments.CeilDiv | src/rows_to_files.ts:31 | `Math.ceil(n / k)`: the least count of `k`-row parts that covers `n` rows |
| Segments.CalculateBytes | src/rows_to_files.ts:8-12 | the sum of the rows' UTF-8 lengths; JoinBytes and ContentBytes relate it to the byte length of the written text |
| Segments.Chunks | src/rows_to_files.ts:31-37 | the slices the splice loop takes: every slice holds between one and `maxRowsPerFile` rows |
| Segments.Content | src/rows_to_files.ts:40 | a segment's text is never empty and ends in a newline |
| Segments.ChunksCount | src/rows_to_files.ts:31-37 | the splice loop cuts exactly `Math.ceil(n / k)` slices |
| Segments.ChunksShape | src/rows_to_files.ts:36-37 | every slice but the last holds `maxRowsPerFile` rows, and the last holds between one and that many |
| Segments.ChunksFlatten | src/rows_to_files.ts:35-37 | the slices, concatenated in part order, are the batch: no row is lost, duplicated or reordered |
| Segments.TenRowsFivePerFile | src/rows_to_files.ts:31-37 | ten rows at five per file make two files of five rows |
| Segments.NamesAt | src/rows_to_files.ts:41 | the name of part `i` encodes `i`, the slice's row count and its byte count |
| Segments.Disk.WriteFile | src/rows_to_files.ts:51 | writing a file creates or replaces that one file |
| Segments.RowsToFiles | src/rows_to_files.ts:27-61 | returns the names of the slices in part order and the batch's row count, writes each slice's text under its name, and every returned name carries its slice's row count |
| Segments.NamesRowCounts | src/rows_to_files.ts:41 | every part name parses to the number of rows of its slice |
| Segments.SizesSum | src/rows_to_files.ts:55-59 | the slices' row counts add up to the batch's length, the `stats.rows` the writer reports |
| Segments.StagedRowCount | src/rows_to_files.ts:55-59 | the writer and the parser agree: the counts parsed from one batch's names add up to the batch's rows |
| Segments.ContentLines | src/rows_to_files.ts:40 | a segment's text splits back into its rows, followed by the empty piece after the final newline |
| Segments.ContentBytes | src/rows_to_files.ts:38-40 | the byte count in a name leaves out the newlines: the text is one byte per row longer |
| Segments.NamesDistinct | src/rows_to_files.ts:41 | parts of one batch have distinct names, so no write replaces another |
| Segments.WrittenKeys | src/rows_to_files.ts:51 | after the writes the directory holds the files it held before and the written names, nothing else |
| Segments.WrittenElsewhere | src/rows_to_files.ts:51 | a file that was not written keeps its contents |
| Segments.WrittenAt | src/rows_to_files.ts:51 | with distinct names, each written file holds what was written to it |
| Segments.StagedContents | src/rows_to_files.ts:35-53 | after a batch is staged, the file of each part holds the text of that part's slice in the batch's format |
| Buffer.ConfigureDefaults | src/index.ts:47-61 | with no options set: 1000 rows in memory and per file, 100 files per load, mode 0o777, the default database, a 5000 ms time condition |
| Buffer.Configure | src/index.ts:166-198 | the settings: each option over its field default; ConfigureDefaults and ConfigureOverrides state the rule |
| Buffer.InsertStatement | src/index.ts:200-203 | the statement of every load; ColumnsRoundTrip, ColumnsOfNoFields and InsertStatementExample state its shape |
| Buffer.ConfigureOverrides | src/index.ts:167-172 | a numeric option replaces its default exactly when it is truthy (zero keeps the default), and a supported row count per file is positive |
| Buffer.ColumnsRoundTrip | src/index.ts:200-202 | the column list is ` (`, the quoted field names joined by `,`, and `)`; it splits back into the quoted names in order |
| Buffer.ColumnsOfNoFields | src/index.ts:200-202 | no field list gives no column list, while an empty one gives ` ()` |
| Buffer.InsertStatementExample | src/index.ts:203 | the statement for the default database, table `fieldSettings0` and field `id` is `INSERT INTO "default"."fieldSettings0" ("id") FORMAT JSONCompactEachRow` |
| Buffer.ConditionMetMonotone | src/index.ts:93-96 | a met load condition stays met as time passes and rows are staged |
| Buffer.NoConditionNeverMet | src/index.ts:93-96 | without a truthy `maxTime` or `maxRows` no load is ever triggered |
| Buffer.ConditionMet | src/index.ts:93-96 | the load condition on elapsed time and staged rows; ConditionMetMonotone and NoConditionNeverMet state its properties |
| Buffer.ClickhouseBuffer.IsConditionMet | src/index.ts:93-96 | the condition on the buffer's own date and counter at time `now`, which DetachIfConditionMet and FlushToFiles use |
| Buffer.ClickhouseBuffer.constructor | src/index.ts:166-208 | the settings are the options over the defaults; the buffer starts empty, dated `now`, with the interval running exactly when `maxTime` is truthy |
| Buffer.ClickhouseBuffer.ResetRows | src/index.ts:210-214 | returns the rows in memory and empties it |
| Buffer.ClickhouseBuffer.ResetFiles | src/index.ts:216-221 | returns the staged names, whose parsed counts add up to the old counter, and zeroes names and counter |
| Buffer.ClickhouseBuffer.Push | src/index.ts:223-230 | normalises the row in place and appends its serialisation; at `maxRowsInMemory` rows it empties memory and schedules their flush, checking conditions exactly when `maxRows` is truthy |
| Buffer.ClickhouseBuffer.MaxTimeHandler | src/index.ts:86-91 | empties memory and schedules a checking flush of its rows, if there were any |
| Buffer.ClickhouseBuffer.FlushToFiles | src/index.ts:98-116 | stages the batch's segment files and adds its rows to the counter; when asked to check and a condition is met on the new counter, detaches all staged names as the load (none if the list is empty); the load's names carry their row counts |
| Buffer.ClickhouseBuffer.Stage | src/index.ts:100-108 | the batch's names are appended to the staged names, its rows to the counter, its slices to the disk |
| Buffer.ClickhouseBuffer.DetachIfConditionMet | src/index.ts:110-115 | when asked to and a condition is met, detaches the staged names as the load; otherwise changes nothing |
| Buffer.ClickhouseBuffer.Record | src/index.ts:107-108 | appending names and adding their row counts to the counter keeps the counter equal to what the names hold |
| Buffer.ClickhouseBuffer.LoadToDatabase | src/index.ts:118-119 | a load dates itself when it starts, before anything is sent |
| Buffer.ClickhouseBuffer.Release | src/index.ts:239-246 | stops the interval and stages the rows in memory without checking conditions: their names are appended, their rows added to the counter, and each slice written to the disk under its name |
| Buffer.ClickhouseBuffer.RowsInMemory | src/index.ts:252-254 | the count of rows in memory, which is below `maxRowsInMemory` or zero |
| Buffer.ClickhouseBuffer.FilesInMemory | src/index.ts:248-250 | the number of staged names; when there are none, the staged-row counter is zero as well |
| Buffer.ClickhouseBuffer.RowsInFiles | src/index.ts:256-258 | the counter equals the total `getRowsInFiles` parses from the staged names |
| Buffer.PushNine | tests/condition_max_rows.test.ts:51-60 | nine pushes with ten rows in memory stay in memory: nine rows, no files, no staged rows |
| Buffer.PushTenth | tests/condition_max_rows.test.ts:62 | the tenth push detaches a batch of ten rows |
| Buffer.FlushTen | tests/condition_max_rows.test.ts:62-64 | flushing the ten rows meets the ten-row condition and loads one file named with ten rows |
| Buffer.MaxRowsScenario | tests/condition_max_rows.test.ts:51-87 | 9 rows and 0 files after nine pushes; a load of one ten-row file after the tenth push; nothing in memory or files afterwards |
| Locking.Mutex.constructor | src/mutex.ts:2 | a new mutex is free |
| Locking.Mutex.Acquire | src/mutex.ts:4-6 | succeeds exactly on a free mutex and leaves it held; on a held mutex changes nothing |
| Locking.Mutex.Release | src/mutex.ts:8-10 | frees the mutex whatever its state |
| Locking.AcquireReleaseCycle | src/mutex.ts:1-11 | acquire succeeds, a second acquire fails, and after releases acquire succeeds again |
| Retries.Clamp | src/retries.ts:33-37 | a delay below a truthy `minTime` is raised to it; otherwise one above a truthy `maxTime` is lowered to it; a delay meeting neither condition is kept |
| Retries.WithRetries | src/retries.ts:16-39 | calls at most `maxAttempts` times, and every call but the last failed; returns the first success, or throws the error of the last allowed call; resolves `undefined` without calling when `maxAttempts <= 0`; the waits are the delays as written, which are `NaN` after the first when no factor is set and the real back-off sequence when one is |
| Retries.Delay | src/retries.ts:31-37 | the waits with an absent factor read as 1; DelayWithinBounds and AsWrittenAgrees state its properties |
| Retries.NextDelay | src/retries.ts:32-37 | one back-off step: multiply by the factor, then clamp |
| Retries.NextDelayAsWritten | src/retries.ts:32-37 | one back-off step as written: `NaN` when the factor is absent, and the clamp never applies to `NaN`; AsWrittenNaN and AsWrittenAgrees state its effect |
| Retries.ThreeAttemptsWithoutFactor | src/retries.ts:22-37 | three failing attempts, bounds 100 and 2000 and no factor: the third error is thrown after waits of 1000 and `NaN` |
| Retries.DelayWithinBounds | src/retries.ts:32-37 | with ordered truthy bounds every wait after the first lies within them |
| Retries.DefaultsThrowFirstError | tests/retries.test.ts:4-17 | with `DEFAULT_RETRIES_OPTIONS` the first error is thrown and nothing is waited |
| Retries.TwoAttemptsThrowSecondError | tests/retries.test.ts:19-36 | with two attempts the second error is thrown after one wait of `initTime` |
| Retries.AsWrittenAgrees | src/retries.ts:32 | with a backoff factor, the update as written and the corrected one give the same waits |
| Retries.AsWrittenNaN | src/retries.ts:32 | as written, without a backoff factor every wait after the first is `NaN` |
| Retries.AsWrittenEscapesBounds | src/retries.ts:32-37 | as written, bounds 100 and 2000 without a factor give a second wait of `NaN` where the corrected wait is 1000 |

## Left out

- Files, streams and the network: the zlib encoders and decoders (only their file-name tags are modelled), `filesToStream`, `removeFiles`, `prepareDirectoryPath`, `loadFilesToDatabase`, the client query and `close`. The staging directory is a map from name to contents; a compressed file is its text tagged with the format.
- Buffer.ClickhouseBuffer.LoadToDatabase: only the date update is modelled. The rest of `loadToDatabase` (src/index.ts:121-145) calls `.then` on the boolean `acquire` returns. It depends on the network and on a mutex API the mutex does not have, so it is not modelled.
- Timers: `setImmediate` and `setInterval` are not scheduled. `Push`, `MaxTimeHandler` and `FlushToFiles` return what they would schedule, and the caller runs it. The interleaving of asynchronous flushes and loads is not modelled.
- Clocks: `Date.now()` and `hrtime.bigint()` are parameters.
- `maxFilesPerLoad` is configured but never used by the source; it is only kept in the settings.
- Buffer.ClickhouseBuffer.constructor: requires `SupportedOptions`, a `maxRowsPerFile` that is absent, zero or positive. With a negative value the source cuts no part (`Math.ceil` of a negative quotient), yet it still adds the rows to `statsRowsInFiles`. Non-integer and negative numeric options are not modelled.
- Rows.FmtRow: numbers are integers and a Date is an integer millisecond time. Fractional numbers, `NaN`, `Infinity` and invalid Dates are not modelled.
- Rows.FmtRow: `JSON.stringify` escaping of strings follows the JSON grammar for quote, backslash and control characters. Nothing else about JSON output is stated beyond the line being newline-free.
- FileNames.ParseRowCount: the count is parsed exactly; `parseInt`'s loss of precision above 2^53 is not modelled.
- Buffer.DefaultDatabase: `DEFAULT_DATABASE` comes from the ClickHouse client package, which is not part of this model; it is taken to be `"default"`.
- Retries.WithRetries: `maxAttempts` is an integer and the options are reals. A fractional `maxAttempts` and `NaN` or infinite options are not modelled. A `NaN` wait is recorded as the value handed to `setTimeout`; what the timer then does with it is not modelled.
- Retries.Delay: the corrected back-off (an absent factor read as 1) is not what `WithRetries` waits, since the helper follows the code as written. Its waits equal `Delay` whenever a factor is set. The function is a function of the call index, so side effects of the operation beyond its outcomes are not modelled.
- Locking.Mutex: only the sequential behaviour of the shared cell is modelled, not its atomicity across threads.
- Segments.RowsToFiles: `rows.splice` empties the caller's array in the source; the model slices its own copy.

## Findings

| source | as written | input that shows it | evidently intended | confidence | as-written member | corrected member |
|---|---|---|---|---|---|---|
| src/retries.ts:32 | `time *= backoffFactor` with the optional `backoffFactor` absent makes the delay `NaN`. Every later comparison with `minTime` or `maxTime` is false, so the bounds never apply again. | `{initTime: 1000, maxAttempts: 3, minTime: 100, maxTime: 2000}`: the second wait is `NaN` | an absent factor keeps the delay (factor 1), clamped to the bounds | not executed | Retries.ThreeAttemptsWithoutFactor | Retries.DelayWithinBounds |
