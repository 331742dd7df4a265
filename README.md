# Transaction dashboard aggregation engine, modelled in Dafny

This project models the part of the CSV transaction dashboard that turns uploaded CSV files into
totals. Each CSV row is a transaction. Its REPORTTYPE is HOC, IBD or WU. Its
ACCOUNT_HOLDER_ACCOUNT_ROLE is C (credit) or D (debit). It also has a currency (USD or MMK), an
amount, a transaction date and a serial number. The files modelled are `fileHandler.js`,
`dataProcessor.js`, `tableData.js` and `csvWorker.js`.

- **Line parser** (`CsvLine`). `parseCSVLine` is a toggle-quote field splitter. A `"` flips the
  quote mode and is dropped, a comma outside quotes ends a field, and every field is trimmed.
  `csvWorker.js` holds a character-for-character copy of it, so `CsvLine.ParseCsvLine` stands for
  both copies. The module also models `String.prototype.trim` and `split('\n')`.
- **Amounts and ids** (`Numbers`). `parseFloat(x) || 0` is modelled on amounts as whole
  hundredths. The decimal size text is what a file id is built from.
- **The per-row fold** (`Metrics`). It covers the eighteen counters and the HOC and IBD-or-WU
  serial sets. It is specified once as a left fold (`FoldRows`, `FoldSerials`). The three copies
  of the fold are proved to compute it:
  - `FileHandler.updateMetricsWithRow`;
  - `DataProcessor.calculateMetrics`;
  - the worker's `calculateMetrics`.
- **Row gate** (`Rows`). A line becomes a row object by header position. Blank lines, short
  lines and rows with an empty REPORTTYPE are skipped. The header line is skipped in the first
  chunk.
- **Date table** (`DateKeys`, `DateTable`). This covers:
  - `extractDate` and its two inline copies;
  - the per-date credit/debit buckets and their merge;
  - the DD-MMM-YY sort key with its 50 pivot, and the sorted table;
  - the `TableData` object with its pagination.
- **Processor** (`Processor`). The `DataProcessor` object:
  - summary counters with adding and floored subtraction;
  - serial sets with removal;
  - processed-file ids;
  - the two filter selects.
- **File handler** (`Files`, `Handler`).
  - Metrics records and the reader of a file in windows of 512 KiB, carrying a cut-off partial
    line across windows.
  - The `FileHandler` object: the session's duplicate gate, `processFiles`, `removeFile`, and
    the recompute from the files still active.
- **Worker** (`Worker`). `processChunk`, `calculateMetrics` and `aggregateByDate` as loops. Each
  is proved equal to the main thread's definition.

Date rendering through `new Date(...)` and `toLocaleDateString` depends on locale and time zone.
It is a parameter `render: string -> Option<string>` of every date operation; `None` stands for an
invalid date. A file is its name and its text, one character per byte, so its size is the length
of its text.

## Model

| member | source | states |
|---|---|---|
| CsvLine.TrimInfix | fileHandler.js:963 | what trim keeps is an infix of the line with only white space before and after it |
| CsvLine.SplitCount | fileHandler.js:1200-1222 | the splitter yields one field more than the commas met outside quotes |
| CsvLine.SplitJoin | fileHandler.js:1200-1222 | re-joining the untrimmed fields with commas gives the line with its quotes deleted |
| CsvLine.SplitNoQuote | fileHandler.js:1206-1207 | no field holds a double quote, since a quote only toggles the mode |
| CsvLine.FieldsFacts | fileHandler.js:1200-1222 | parseCSVLine returns 1 + (commas outside quotes) fields, none holding `"`, every one trimmed, and they re-join to the unquoted line |
| CsvLine.ParseCsvLine | fileHandler.js:1200-1222 | the character loop with `current` and `inQuotes` returns exactly the fields of the line |
| CsvLine.SplitLinesNoNewline | fileHandler.js:767 | no piece of `split('\n')` holds a line feed |
| CsvLine.SplitLinesJoin | fileHandler.js:767 | joining the pieces of `split('\n')` with line feeds gives the text back |
| CsvLine.SplitLinesAppend | fileHandler.js:763-774 | splitting `a + b` keeps all pieces of `a` but its last, then splits that last piece glued to `b` (the carry-over law) |
| Numbers.NatToStringValue | dataProcessor.js:581 | reading back the decimal text of a size gives the size |
| Numbers.NatToStringInjective | dataProcessor.js:581 | different sizes have different decimal texts |
| Numbers.ParseFormatCents | fileHandler.js:1033 | the amount parse reads back every amount written as `[-]digits.dd` |
| Metrics.AddZero | fileHandler.js:995-1024 | the zero record is a unit of the pointwise accumulation |
| Metrics.AddAssoc | fileHandler.js:995-1024 | pointwise accumulation is associative |
| Metrics.AddComm | fileHandler.js:995-1024 | pointwise accumulation is commutative |
| Metrics.FoldRowsAppend | fileHandler.js:995-1024 | the counters of `a + b` are those of `a` plus those of `b`: accumulating chunk results equals folding all rows |
| Metrics.FoldRowsMeaning | dataProcessor.js:431-503 | the fold counts every row, sums every amount, counts HOC and IBD rows by type, and keeps credit+debit within each type count and USD+MMK within the total |
| Metrics.WuLeavesTypeCounters | fileHandler.js:1072-1075 | a WU row changes no HOC or IBD counter or amount, only the totals and the currency buckets |
| Metrics.FoldSerialsSets | fileHandler.js:1044-1075 | the serial fold collects exactly the non-empty serials of HOC rows, and of IBD and WU rows |
| Metrics.FoldSerialsAppend | fileHandler.js:1022-1023 | the serial sets of `a + b` are the unions of those of `a` and of `b` |
| Metrics.TallyRow | dataProcessor.js:431-503 | the per-row branch ladder steps the counters and the serial sets exactly as the fold does |
| Metrics.UnionSize | csvWorker.js:214-217 | the union size lies between the larger set size and the sum, reaching the sum iff the sets are disjoint |
| Metrics.SummaryUniqueBounds | dataProcessor.js:505-507 | the total unique count lies between each per-type count and their sum, equal to the sum iff no serial is both HOC and IBD/WU |
| Rows.Field | fileHandler.js:969-971 | a row object's key holds the field under a header column of that name, or "" when there is none |
| Rows.FieldOfLastColumn | fileHandler.js:969-971 | later columns overwrite earlier ones: the key's field is the one under the last header column of that name |
| Rows.LineRow | fileHandler.js:963-974 | a line yields a row iff it is non-blank after trim, has at least as many fields as the header, and has a non-empty REPORTTYPE |
| Rows.ValidRowsAppend | fileHandler.js:962-982 | the rows of `a + b` are the rows of `a` followed by those of `b` |
| Rows.ValidRowsOrigin | csvWorker.js:48-62 | every kept row has a non-empty REPORTTYPE and comes from a line that yields it; there are no more rows than lines |
| Rows.ValidRowsSkip | fileHandler.js:963-974 | lines that yield no row add nothing |
| DateKeys.BeforeSpace | tableData.js:254-256 | `split(' ')[0]` is the prefix of the value up to its first space |
| DateKeys.ExtractDateCases | tableData.js:247-293 | an empty value is "Unknown", a DD-MMM-YY prefix is kept, any other prefix is rendered or kept when the parser rejects it |
| DateKeys.InlineDateKey | fileHandler.js:1087-1135 | the date extraction written out inline in the file handler and in the worker yields extractDate's key on every value |
| DateKeys.ExtractDateOfKey | tableData.js:252-261 | a DD-MMM-YY key, bare or followed by a time, extracts to itself |
| DateKeys.MonthIndex | tableData.js:372-375 | the JAN..DEC table maps to 0..11 |
| DateKeys.FullYear | tableData.js:378 | two-digit years below 50 are 20yy, the rest 19yy |
| DateKeys.DayNumberOrder | tableData.js:380 | for real dates, day numbers order like (year, month, day) |
| DateKeys.SortKeyOrder | tableData.js:368-381 | on DD-MMM-YY keys of real dates the sort key orders by full year, then month, then day |
| DateKeys.BeforeTotal | tableData.js:351-364 | the table order relates every two keys |
| DateKeys.BeforeTrans | tableData.js:351-364 | the table order is transitive |
| DateTable.GroupByDateSnoc | tableData.js:296-346 | one more row steps the grouping of the rows before it |
| DateTable.AddBucketLaws | tableData.js:224-233 | bucket addition has zero as unit and is associative and commutative |
| DateTable.MergeEmpty | tableData.js:220-235 | merging with an empty map changes nothing |
| DateTable.MergeAssoc | tableData.js:220-235 | merging date maps is associative |
| DateTable.GroupIntoMerge | tableData.js:139-185 | grouping rows onto existing buckets equals merging the rows' own grouping into them |
| DateTable.GroupIntoAppend | tableData.js:118-136 | grouping chunk after chunk equals grouping their concatenation |
| DateTable.GroupByDateAppend | tableData.js:296-346 | the grouping of a concatenation is the merge of the groupings |
| DateTable.GroupByDateKeys | tableData.js:296-346 | grouping makes one key per distinct date key of the rows, WU rows included |
| DateTable.GroupByDateBuckets | tableData.js:296-346 | each key's bucket sums exactly the rows with that key |
| DateTable.BucketSumIsProjection | tableData.js:159-180 | the buckets count and sum the same HOC/IBD credit and debit rows as the metrics fold |
| DateTable.NonTableRow | tableData.js:159-180 | a row other than HOC/IBD with role C or D only creates its date key |
| DateTable.NonTableContribution | tableData.js:159-180 | such a row contributes a zero bucket |
| DateTable.ChainedIsOrdered | tableData.js:351-364 | the row-by-row order of a table is pairwise sorted and without repeated dates |
| DateTable.TabulatesIsTableOf | tableData.js:349-365 | as many rows as keys, each carrying its bucket, ordered and distinct, is exactly one row per key in order |
| DateTable.InsertMembers | tableData.js:351-364 | insertion adds exactly the new row |
| DateTable.InsertSorted | tableData.js:351-364 | insertion keeps the rows sorted |
| DateTable.InsertDistinct | tableData.js:351-364 | insertion of a new date keeps the dates distinct |
| DateTable.FormatTableData | tableData.js:349-365 | formatTableData returns one row per date key with its bucket, sorted by the date sort key |
| DateTable.PageCount | tableData.js:445 | `Math.ceil(n / perPage)` pages cover n rows, and the last page is non-empty |
| DateTable.PageStartBelow | tableData.js:453 | the first row of any page up to the page count lies within the rows |
| DateTable.PagesNonEmpty | tableData.js:453-457 | every page shows between one and rowsPerPage rows within [0, n] |
| DateTable.AddRowToBucket | tableData.js:158-180 | the per-row branch ladder adds the row's credit or debit to its bucket |
| DateTable.GroupDataByDate | tableData.js:296-346 | groupDataByDate returns the grouping of the data |
| DateTable.MergeInto | tableData.js:220-235 | the merge loop copies new keys and adds existing ones |
| DateTable.ChunkStep | tableData.js:118-136 | grouping the next chunk onto the grouping so far gives the grouping of the longer prefix |
| DateTable.TableData.constructor | tableData.js:8-21 | an empty, uninitialised table on page 1 of 1 with 20 rows per page |
| DateTable.TableData.UpdateTable | tableData.js:423-457 | totalPages = ceil(n / rowsPerPage), currentPage clamped, and the page slice within [0, n] |
| DateTable.TableData.FinalizeProcessing | tableData.js:188-197 | the rows are rebuilt as the sorted table of the buckets, which stay as they are |
| DateTable.TableData.GroupChunkByDate | tableData.js:139-185 | the chunk's rows are grouped onto the buckets |
| DateTable.TableData.ProcessData | tableData.js:104-136 | no data resets the table; otherwise the buckets become the grouping of the data |
| DateTable.TableData.UpdateWithDateData | tableData.js:200-244 | empty input changes nothing; uninitialised, the buckets are replaced; otherwise merged |
| DateTable.TableData.PrevPage | tableData.js:392-397 | the page goes down by one unless on page 1, staying within 1..totalPages |
| DateTable.TableData.NextPage | tableData.js:403-408 | the page goes up by one unless on the last page, staying within 1..totalPages |
| DateTable.TableData.SetRowsPerPage | tableData.js:414-418 | a new page size and back to page 1 |
| DateTable.TableData.ResetTable | tableData.js:508-515 | no rows, no buckets, not initialised, page 1 of 1 |
| Processor.Floor0 | dataProcessor.js:215-220 | the floored difference is non-negative, and exact when the difference is |
| Processor.SubtractIncoming | dataProcessor.js:225-256 | every main counter ends non-negative; currency fields are floored only when present |
| Processor.SubtractUndoesAdd | dataProcessor.js:107-256 | subtracting what was added restores counters without a negative field |
| Processor.SubtractKeepsNonNegative | dataProcessor.js:225-256 | subtraction keeps non-negative counters non-negative |
| Processor.UpdateIsFold | dataProcessor.js:136-170 | adding the metrics of `b` to the fold of `a` gives the fold of `a + b` |
| Processor.AddedUniquesOvercount | dataProcessor.js:152-160 | unique counts added per file never undercount the serials of both files, and are exact only when the files share no serial |
| Processor.RemovalKeepsUnion | dataProcessor.js:613-638 | removing HOC and then IBD serials keeps the combined set the union of the two |
| Processor.DigitSuffixOfId | dataProcessor.js:579-582 | an id ends in exactly the digits of its size |
| Processor.FileIdInjective | dataProcessor.js:579-582 | two files get the same id iff they have the same name and size |
| Processor.MarkedFiles | dataProcessor.js:585-596 | after marking (name, size), a file counts as processed iff it did before or has that name and size |
| Processor.FilterSubseq | dataProcessor.js:322-344 | a filter's output is a subsequence of its input |
| Processor.FilterMembers | dataProcessor.js:322-344 | a filter keeps exactly the rows that pass |
| Processor.FilterFilter | dataProcessor.js:322-344 | filtering twice is filtering once by both tests |
| Processor.FilteredRowsMeaning | dataProcessor.js:317-344 | the filtered rows are a subsequence of the raw rows holding exactly those matching both selects (IBD admitting WU); "all"/"all" keeps every row |
| Processor.TallyRows | dataProcessor.js:431-503 | the forEach leaves the fold's counters and sets, and the combined set their union |
| Processor.RemoveFrom | dataProcessor.js:613-625 | each given serial leaves its own set, and the combined set unless the other set holds it |
| Processor.RemoveSerials | dataProcessor.js:599-642 | the given HOC and IBD serials leave their sets; the combined set stays the union |
| Processor.DataProcessor.constructor | dataProcessor.js:7-48 | zero counters, empty sets and ids, no rows, both selects "all" |
| Processor.DataProcessor.UpdateMetrics | dataProcessor.js:107-192 | no object changes nothing; otherwise counters are added (currency when present) and present unique counts added |
| Processor.DataProcessor.SubtractMetrics | dataProcessor.js:195-278 | no object changes nothing; otherwise counters are floored differences and unique counts the set sizes |
| Processor.DataProcessor.ResetMetrics | dataProcessor.js:281-314 | zero counters and empty sets, whatever the state before |
| Processor.DataProcessor.CalculateMetrics | dataProcessor.js:416-513 | the summary is the fold of the data, the sets its HOC and IBD-or-WU serials, the unique counts their sizes |
| Processor.DataProcessor.RemoveSerialNumbers | dataProcessor.js:599-655 | the given serials leave their sets and the combined set stays their union; unique counts become the set sizes; ids and rows are kept |
| Processor.DataProcessor.UpdateSerialCounts | dataProcessor.js:668-682 | the three unique counts are overwritten; sets, ids and rows are kept |
| Processor.DataProcessor.FixTransactionCount | dataProcessor.js:685-729 | the count is overwritten, and with an update object the fields it carries |
| Processor.DataProcessor.IsFileProcessed | dataProcessor.js:585-588 | true iff the file's id is marked |
| Processor.DataProcessor.MarkFileAsProcessed | dataProcessor.js:591-596 | the file's id joins the processed ids |
| Processor.DataProcessor.ApplyFilters | dataProcessor.js:317-382 | the filtered rows are the raw rows through both selects, and summary, sets and table describe them; the page size is kept |
| Processor.DataProcessor.Rebuild | dataProcessor.js:69-86 | resetMetrics, calculateMetrics and the table's processData leave everything describing the rows; the page size is kept |
| Processor.DataProcessor.ResetFilters | dataProcessor.js:385-413 | both selects "all", and everything describes the raw rows; the page size is kept |
| Processor.DataProcessor.ProcessData | dataProcessor.js:65-104 | the data become the raw rows and everything describes their filtered rows; the page size is kept |
| Files.MetricsRecord.constructor | fileHandler.js:936-956 | a zero record with empty serial sets |
| Files.MetricsRecord.UpdateMetricsWithRow | fileHandler.js:1031-1084 | the row's counters and serial go into the record, as the fold steps them |
| Files.MetricsRecord.AccumulateMetrics | fileHandler.js:995-1024 | every counter of the chunk added, and each chunk serial added to the matching set |
| Files.LiteralsDistinct | fileHandler.js:1046-1080 | the literals the row ladders compare against are distinct |
| Files.CountRow | fileHandler.js:1035-1083 | the counter ladder steps the counters as the fold does |
| Files.RecordSerial | fileHandler.js:1049-1074 | the serial branch adds a non-empty HOC serial to the HOC set and an IBD or WU one to the IBD set |
| Files.AddAll | fileHandler.js:1022-1023 | `forEach(add)` leaves the union |
| Files.UpdateDateData | fileHandler.js:1087-1176 | the row is grouped under its extractDate key, as the table groups it |
| Files.ParseChunkLine | fileHandler.js:963-974 | the per-line gate yields exactly the line's row |
| Files.FoldParsedRow | fileHandler.js:975-980 | a kept row is folded into the record and the buckets, and counted |
| Files.ScanLines | fileHandler.js:962-982 | the loop leaves the fold, the count and the grouping of the lines' rows |
| Files.ProcessChunkForMetrics | fileHandler.js:934-992 | line 0 is skipped only in the first chunk; the record is the fold of the kept rows; processedRows equals its totalTransactions; the table gets their buckets |
| Files.SplitLinesMany | fileHandler.js:767-771 | a text splits into several lines iff it holds a line feed |
| Files.NextWindow | fileHandler.js:753-774 | the last piece is carried only while file remains, and lines handed out plus carry split the text read so far; at the end, the whole text |
| Files.WindowDates | fileHandler.js:988 | merging the buckets of a longer row list is merging those of the shorter one, then the rest's |
| Files.FileLinesStep | fileHandler.js:776-805 | the rows after the header extend window by window |
| Files.ProcessWindow | fileHandler.js:805-807 | one window's record is the fold of its rows, and the table stands for the rows read so far |
| Files.AccumulateWindow | fileHandler.js:809 | the file's record becomes the fold of the rows read so far |
| Files.WindowLines | fileHandler.js:753-780 | the next window's lines; reading the header fails iff the first window has no line after the pop |
| Files.RowsStep | fileHandler.js:835-836 | the line and row counters advance by the window's lines and rows |
| Files.ConsumeWindow | fileHandler.js:805-809 | the window's rows go into the record and the table |
| Files.ReadStep | fileHandler.js:805-836 | one pass of the reading loop after its lines are known |
| Files.ReadFile | fileHandler.js:745-848 | reading succeeds iff the file fits one window or its first window holds a line feed; then the lines are the whole text split, and the record the fold of the file's rows |
| Handler.IsCsvSuffix | fileHandler.js:142 | a name passes the CSV test iff it ends in a dot and c, s, v in either case |
| Handler.CsvFiles | fileHandler.js:142 | exactly the picked files with a CSV name, in order |
| Handler.Admit | fileHandler.js:158-183 | at most one entry per CSV file |
| Handler.AdmitSeen | fileHandler.js:158-183 | after the walk the session has seen its earlier names and every new name |
| Handler.AdmitEntries | fileHandler.js:158-183 | every entry is one of the files under a name not seen before, not removed, and flagged iff its id is processed |
| Handler.AdmitNamesListed | fileHandler.js:158-183 | every newly seen name is an admitted entry's name |
| Handler.AdmitDistinct | fileHandler.js:158-183 | no two admitted entries share a name |
| Handler.AdmitComplete | fileHandler.js:158-183 | every file whose name had not been seen is admitted |
| Handler.AppendAdmitted | fileHandler.js:188 | appending the admitted entries keeps the list's names distinct and seen |
| Handler.SpliceDistinct | fileHandler.js:374 | splicing an entry out keeps the names distinct |
| Handler.FlagDistinct | fileHandler.js:392 | flagging an entry keeps the names distinct and seen |
| Handler.ActiveNames | fileHandler.js:438 | exactly the names of the entries not flagged as removed |
| Handler.FindIndex | fileHandler.js:411 | the first entry with the name, or -1 iff there is none |
| Handler.AddToBoth | fileHandler.js:476-486 | the stored serials join the own set and the combined set |
| Handler.ReplaySerialsMembers | fileHandler.js:458-487 | a replayed set holds exactly the serials some replayed file stored |
| Handler.ReplayIsFold | fileHandler.js:458-487 | replaying stored folds gives the counters and serial sets of all the active files' rows together |
| Handler.ReplaySummary | fileHandler.js:458-501 | the recompute leaves the summary calculateMetrics gives for the active files' rows |
| Handler.ToProcess | fileHandler.js:597-599 | no more files than listed |
| Handler.ToProcessMembers | fileHandler.js:597-599 | exactly the listed files whose id is not processed |
| Handler.ReadablePrefix | fileHandler.js:631-651 | no more files than given |
| Handler.ReadablePrefixMeaning | fileHandler.js:631-651 | the files before the first unreadable one are readable, and that one is not |
| Handler.SumSummaries | fileHandler.js:655-657 | the processed-row total of the entries is the number of rows of the files |
| Handler.MetricsAfterIsFold | fileHandler.js:631-651 | processing files one by one adds the fold of their rows, and the count fix only lifts a negative count to zero |
| Handler.ProgressSnoc | fileHandler.js:636-642 | processing and marking one more file carries the progress over |
| Handler.ResetProcessor | fileHandler.js:553-568 | the processor's ids and data are cleared and the table reset, keeping its page size |
| Handler.FileHandler.constructor | fileHandler.js:8-36 | no files, entries, sets, stored objects or seen names |
| Handler.FileHandler.SelectFiles | fileHandler.js:130-214 | refused while processing; otherwise the admitted CSV files are appended and their names join the session's |
| Handler.FileHandler.AdmitNew | fileHandler.js:158-183 | the loop collects exactly the walk's entries and names |
| Handler.FileHandler.RemoveFile | fileHandler.js:357-433 | refused while processing; a flagged entry is spliced out with nothing else changed; otherwise flagged, its first entry dropped, and the dashboard recomputed from the active files, keeping the processed ids, raw and filtered rows, buckets and page size |
| Handler.FileHandler.RemoveActive | fileHandler.js:392-427 | the entry is flagged, its first entry dropped, and the dashboard recomputed, keeping the processed ids, raw and filtered rows, buckets and page size |
| Handler.FileHandler.DropAndRecompute | fileHandler.js:402-427 | the file's first entry is dropped and the dashboard recomputed from the active files, keeping the processed ids, raw and filtered rows, buckets and page size |
| Handler.FileHandler.FlagRemoved | fileHandler.js:392 | only that entry's flag is set |
| Handler.FileHandler.DropFileData | fileHandler.js:402-414 | when the file has stored serials they leave the processor's sets and the unique counts become the new set sizes, otherwise those are unchanged; its first entry is dropped; the processed ids and rows are kept |
| Handler.FileHandler.DropEntry | fileHandler.js:411-414 | the first entry with the name is dropped |
| Handler.FileHandler.UpdateDashboardAfterRemoval | fileHandler.js:436-534 | no active file resets; otherwise counters are the replay, sets the union of stored serials, unique counts their sizes, and the entries, stored maps, buckets, processed ids, rows and page size are kept |
| Handler.FileHandler.ReplayDashboard | fileHandler.js:450-521 | counters are the replay, the handler's sets the union of stored serials, the unique counts their sizes, the table rebuilt over its unchanged buckets and page size |
| Handler.FileHandler.ReplayCounts | fileHandler.js:450-488 | counters are the replay of the active files and the handler's sets the union of their stored serials; the processor's sets are empty |
| Handler.FileHandler.StartReplay | fileHandler.js:448-455 | metrics reset, the unique counts zeroed, and the processor's and handler's sets cleared |
| Handler.FileHandler.ReplayActive | fileHandler.js:458-487 | the counters, unique counts and sets become the replay of the named files; the processor's sets, ids, rows and the page size are kept |
| Handler.FileHandler.ReplayFile | fileHandler.js:459-486 | the file's stored object is added, its stored unique counts added to the processor's, and its stored serials join the sets |
| Handler.FileHandler.ResetDashboard | fileHandler.js:537-576 | everything cleared and the table reset, keeping its page size |
| Handler.FileHandler.ProcessFileWithMemoryOptimization | fileHandler.js:706-930 | succeeds iff readable; then the entry, stored object and serials are recorded, the summary grows by the file's fold, and the buckets by its rows |
| Handler.FileHandler.StoreFile | fileHandler.js:848-912 | the entry, the stored object and serials recorded, the object added, and the count raised when below |
| Handler.FileHandler.ProcessFiles | fileHandler.js:590-703 | refused with no file or while processing; otherwise the unprocessed files up to the first unreadable one are processed and marked; the page size is kept |
| Handler.FileHandler.StartRun | fileHandler.js:593-599 | the run over the files not yet processed, with the flag lowered at the end; the page size is kept |
| Handler.FileHandler.RunFiles | fileHandler.js:629-684 | the loop, and after a full run the unique counts of the handler's sets are added; the page size is kept |
| Handler.FileHandler.TryRun | fileHandler.js:629-684 | over at least one file: the files up to the first unreadable one are processed, and after a full run the sizes of the handler's sets are added to the unique counts; the page size is kept |
| Handler.FileHandler.EndRun | fileHandler.js:654-683 | when every file went through, the sizes of the handler's sets are added to the unique counts and the progress kept; otherwise nothing changes |
| Handler.FileHandler.ProcessAll | fileHandler.js:631-651 | the files up to the first unreadable one are processed in order; the page size is kept |
| Handler.FileHandler.ProcessNext | fileHandler.js:636-642 | one file processed and, when that succeeds, marked; the page size is kept |
| Handler.FileHandler.MarkNext | fileHandler.js:639-642 | a stored file is marked, completing the step |
| Handler.FileHandler.FinishRun | fileHandler.js:654-683 | the count fix never fires after a full run; the sets' sizes are added to the unique counts; the page size is kept |
| Worker.ProcessChunk | csvWorker.js:33-71 | the kept rows are the chunk's rows, with their summary and their date buckets |
| Worker.KeepLines | csvWorker.js:39-63 | the loop keeps exactly the rows of the lines from startIndex on |
| Worker.KeepLine | csvWorker.js:42-62 | one line's gate yields exactly its row |
| Worker.CalculateMetrics | csvWorker.js:99-220 | the worker's metrics equal the main thread's summary of the rows |
| Worker.AggregateByDate | csvWorker.js:223-318 | the worker's buckets equal the table's grouping of the rows |
| Worker.SummaryFacts | csvWorker.js:141-217 | one transaction per row, the sum of amounts, credit+debit within each type, and union bounds |

## Left out

- `visualizer.js` and `app.js`: chart widgets, notifications, memory monitoring and the inline worker script. They are UI over libraries that are not part of this model.
- DOM work: `initEventListeners`, `updateFileList`, `showConfirmationDialog`, `updateSubmitButtonVisibility`, `updateProgress`, `updateUI`, `initPagination`, `updatePaginationInfo`, the Excel export, and the DOM writes of `updateTable`. They only display state.
- `FileReader`, `file.slice`, the `setTimeout` re-entry, the `window.gc` hacks and the Promise plumbing. The reader reads windows as slices of the file's text in one loop.
- Worker messaging (`initWorker`, `postMessage`, `onmessage`): transport between threads. The worker's results, which the handler merges on top of its own, are not merged here.
- Floating point: amounts are exact integers in hundredths, truncated toward zero after two decimals. `parseFloat`'s exponent forms and long fractions are not modelled. `safeAdd`'s NaN guards are not needed on integers.
- Number and currency formatting (`formatNumber`, `formatCurrency`, `formatFileSize`): display only.
- `new Date(...)` and `toLocaleDateString`: a parameter of the date operations, because they depend on locale and time zone. The ISO and generic branches of `extractDate` call the same conversion, so they are one case.
- `convertDateForSorting`'s fallback `new Date(dateStr).getTime()` for keys that are not DD-MMM-YY: such keys have no sort key and are placed after all others. The source compares NaN there, so its order depends on the engine.
- `updateDashboard`'s proportional scaling with `Math.round` (fileHandler.js:1273-1288): it only fires when the summary's count is below the processed-row total. After a full run it never is, as `Handler.MetricsAfterIsFold` shows.
- `updateDashboard`'s sample-row fallback (fileHandler.js:1290-1312): it is guarded by `!this.worker && currentMetrics.totalTransactions === 0`. After a full run a zero count means no file kept a row. Sample rows pass the same gate as kept rows, so there are none, and the fallback changes nothing.
- The order among date keys with equal sort keys (such as "29-FEB-23" and "01-MAR-23"): the table's buckets are a map without insertion order. The source's stable sort (tableData.js:350-364) keeps the keys' insertion order there, and `DateTable.IsTableOf` leaves it open.
- Characters are one per byte. File sizes are text lengths, and a window is 512 × 1024 characters.
- JavaScript object keys: a header column named like an `Object.prototype` property, and date keys such as `__proto__`, are not modelled.
- `window.dataProcessor`, `window.tableData` and `window.app` are passed as parameters and always present. The branches for their absence are not modelled.
- `Handler.LowerAscii`: `toLowerCase` is modelled on ASCII letters only.
- `DateTable.TableData.SetRowsPerPage`: the new page size must be positive. The selector in the page only offers positive sizes.
- `Handler.FileHandler.RemoveFile`: an index outside the list is a precondition. In the source it throws a TypeError before changing anything.
- `Handler.FileHandler.ProcessFileWithMemoryOptimization`: a header read that throws is a failed result, as is the rejected promise. The catch in `processFiles` then ends the loop, which `Handler.FileHandler.ProcessAll` models.
- `Handler.FileHandler.UpdateDashboardAfterRemoval`: the table's buckets are left as they are, and only the rows are rebuilt. This is the source's own behaviour.
- `Processor.DataProcessor.UpdateMetrics`: the `!this.summaryMetrics` re-initialisation branch is not modelled, because the summary always exists after the constructor.
- `DateTable.TableData.UpdateWithDateData`: the merged buckets are values. Sharing of bucket objects with the caller's map is not modelled.
- Sample rows (`sampleRows`, fileHandler.js:787-802): kept only for display.
