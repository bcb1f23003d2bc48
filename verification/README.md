# Asset extraction: a verified model

The back end ingests documents in the background. Readers for CSV files, spreadsheets and PDFs
produce rows; an extraction processor classifies each row as deterministic or ambiguous, buffers
the two classes and dispatches full batches, one to a persistence queue and the other to a language
model; the answers are validated, scored and routed to review. This project models the parts with
real algorithms or state and proves what they promise.

- **The batching pipeline** (`Pipeline`, `PipelineBounds`, `PipelineFlush`, `PipelineEnd`,
  `ExtractionProcessor`).
  `processRow` and `flush` are asynchronous and the CSV reader does not await its calls, so any
  number of them may be suspended at once. The protocol is a state machine whose actions are the
  uninterrupted segments between awaits, scheduled by an adversary, with promises that may reject.
  The classes `BatchHelper` and `ExtractionProcessor` perform these segments and are proved equal
  to them.
- **PDF layout** (`PdfVariance`, `PdfLayout`, `PdfBlocks`, `PdfReading`): greedy banding, gap clustering and
  variance-based block types, over the reals.
- **Spreadsheets** (`XlsxHeader`, `XlsxHeaderCells`, `XlsxScan`, `XlsxRecords`, `RowValidation`,
  `HeaderNames`, `Strings`): the header cascade, the two scan loops, the row validator and the header normalisers.
- **Persistence** (`PersistenceQueue`, `Persistence`, `PersistenceRows`, `Sequences`): the counters of the queue under
  any order of events, and nested chunked transactions.
- **Enrichment and scoring** (`Enrichment`, `EnrichmentAnswers`, `SchemaMapping`, `SchemaMeaning`,
  `LlmValidation`, `ScoreMeaning`, `LlmReview`, `LlmEnrichment`, `EnrichmentTypes`): batches of model calls, column mapping, confidence, review.

A method stands where the source has a loop or changes state; it is proved equal to a function, and
the theorems are about that function; among them, for each operation, what its result is in terms of
its input alone. Classes and fields keep the names of the source,
constants its values.

## What the proofs bring to light

- A flush that overtakes an un-awaited `processRow` leaves its row out of the statistics, and in the
  end strands it: `FlushBalancesIff` and `RowsAreStrandedIff` give the exact condition, and
  `ReportCanOmitARow` and `OvertakenRowIsStranded` a run of 51 rows that shows it. The spreadsheet
  reader awaits its calls and is safe: `SequentialDispatchIsChunking`. By the same theorem 12K rows
  make three enqueues; the repository's README speaks of three database calls, but the transaction of
  each batch saves its rows in slices of a hundred.
- A rejected enqueue inside a flush drops the ambiguous rows the flush was holding: exactly then, by
  `RowsAreDroppedIff`; `RejectedFlushDropsARow` is a run of two rows.
- The `header` block type cannot occur, and the y-variance test never fails (`BlockTypes`).
- Two of the four header strategies never matter (`CascadeIsHeaderRow`).
- Header numbering clashes exactly when a header is already called what a duplicate becomes.
- A worker that finishes before `queue.add` resolves leaves `pendingCount` too high for good
  (`SettledIffNeverNegative`), and the final drain then waits for its timeout
  (`SettledDrainTimesOutIff`).
- `persistBatch` counts every candidate as a saved asset; `SavedAssetsIsRightIff` says when that is the
  number of rows stored, `SavedAssetsCanBeWrong` shows one for which it is not.
- A spreadsheet row with an invalid date does not interrupt a run of empty rows (`RunEnds`), and
  such a date among the first hundred rows makes the whole sheet throw (`ScanRows`).
- One element of the model's answer without signals, or with a name, or a currency of length 3, that is no
  text, discards the results of every row of the document (`OneMalformedAnswerDropsAllIff`). Any other
  currency that is no text is merely an issue.
- The enrichment output is a partition of the rows, yet its consumer pairs it with the input by
  position; `PairingIsRightIff` is the exact condition under which that is right.
- The manual schema never maps a plainly named currency column (`PlainNamesLoseCurrency`);
  `CurrencyIsMappedIff` says which columns it does map.
- The completeness of the manual schema counts seven fields in quarters; from five mapped fields on it is
  above one (`QualityIs`).
- A row can be stored as approved and still be queued for review (`ApprovedAndQueuedIff`).
- One escalation rule and one confidence factor can never apply, and with a mapped jurisdiction
  column every row extracted directly is sent to review (`DirectRowStatus`).

## Main results

| area | results |
|---|---|
| pipeline | `EveryRunIsSound`, `BuffersAreBounded`, `BoundIsAttained`, `FlushBalancesIff`, `RowsAreStrandedIff`, `RowsAreDroppedIff`, `QuietFlushDispatchesAll`, `EveryFlushDrains`, `SequentialDispatchIsChunking` |
| PDF layout | `BandingIsOptimal`, `ClustersAreComponents`, `EveryItemInOneBlock`, `ReadingOrder`, `BlockReadsLeftToRight`, `BlockTypes` with `GapsBoundVariance`, `TenCanBeATable` |
| spreadsheets | `HeaderRowIs`, `TextRowOverDataIsHeader`, `CascadeIsHeaderRow`, `DeliveredIff`, `ScanDeliversDataRows`, `BothLoopsAgree`, `RowIsRecoverableIff`, `LastColumnWins`, `NumberingIsInjectiveIff`, `XlsxHeaderIsItsWords`, `NormalizeIsIdempotent` |
| persistence | `PendingIsGreatestSuffix`, `SettledDrainTimesOutIff`, `BulkInsertWithTransaction`, `InsertOutcomeIs`, `StoredRowIs`, `PersistBatch`, `EveryCandidateIsAccountedForIff`, `SavedAssetsIsRightIff` |
| enrichment | `ProcessBatch`, `EveryRowGetsItsAnswer`, `OutputsAreAnswers`, `ErrorsAreUnanswered`, `EveryRowIsAccountedFor`, `PairingIsRightIff`, `OneMalformedAnswerDropsAllIff`, `CreateManualSchema` with `ManualMappingIsSound`, `FieldIsMappedIff`, `CurrencyIsMappedIff`, `RoleIff`, `QualityIs` |
| scoring | `IssueIff`, `ConfidenceIs`, `ExplanationIs`, `AddingIssuesNeverRaisesConfidence`, `CriticalForcesReview`, `EscalatesIff`, `PriorityIs`, `EnrichExtraction` with `EveryReviewRowIsQueued`, `FieldHolds`, `ApprovedAndQueuedIff`, `DirectRowStatus` |

The other rows below are the operations these results are about, or steps towards them; a few facts
that follow from a definition directly are marked as supporting.

## Model

| member | source | states |
|---|---|---|
| Pipeline.EveryRunIsSound | backend/src/helpers/extraction-processor.helper.ts:35-92 | After every prefix of every interleaving of `processRow`, `flush` and resolving or rejecting awaits, each accepted row is in exactly one of: a suspended activity, either buffer, a persisted or enriched batch, or the record of rejections; batches are cut in arrival order; and `processedCount` equals both totals plus both buffers plus the ambiguous rows a suspended flush holds uncounted plus those a rejected flush dropped |
| Pipeline.ApplyLocates | backend/src/helpers/extraction-processor.helper.ts:35-84 | No single uninterrupted segment loses or duplicates a row |
| Pipeline.ApplyKeeps | backend/src/helpers/extraction-processor.helper.ts:46-84 | Every segment keeps the order of each class of rows and the counter equation, across the await between taking and counting the ambiguous rows of a flush |
| PipelineBounds.BuffersAreBounded | backend/src/helpers/extraction-processor.helper.ts:44-62 | With at most `k` overlapping calls and flushes at any time, the buffers never exceed 5000 + k - 1 and 50 + k - 1, and every batch cut at a threshold has between the threshold and that many rows |
| PipelineBounds.BoundIsAttained | backend/src/services/extractCSV.ts:126-143 | For every `k` runs with at most `k` overlapping calls reach all four bounds, on either buffer and on the batches cut from it, so none can be lowered |
| PipelineFlush.FlushBalancesIff | backend/src/services/extractCSV.ts:84-86 | At the moment the flush has settled, with no further call started: if no call of `processRow` was suspended at the start of the flush the statistics balance, whatever rejected; unless a call rejected since, they balance only then; and with nothing rejected or dropped balancing means that the statistics cover every accepted row |
| PipelineFlush.RowsAreStrandedIff | backend/src/helpers/extraction-processor.helper.ts:65-84 | When everything has finished the buffers are empty if no call was suspended at the start of the flush, whatever rejected, and unless a call rejected since, only then |
| PipelineFlush.ReportCanOmitARow | backend/src/services/extractCSV.ts:84-86 | 51 ambiguous rows, the last of which still waits for the model: the flush settles, and the statistics read 50 = 0 + 50 |
| PipelineFlush.EveryCallIsTracked | backend/src/helpers/extraction-processor.helper.ts:35-63 | Over every run an accepted row is counted as processed, or its call is suspended, or it rejected |
| PipelineFlush.QuietFlushDispatchesAll | backend/src/helpers/extraction-processor.helper.ts:65-84 | With no call suspended at the flush each accepted row ends in exactly one of: a persisted or enriched batch, a rejected call, a failed batch, or the rows a rejected flush dropped; with nothing rejected, in a dispatched batch |
| PipelineFlush.OvertakenRowIsStranded | backend/src/services/extractCSV.ts:126-143 | When the model then answers, the 51st row goes into a buffer for good: counted as processed, never dispatched |
| PipelineFlush.RowsAreDroppedIff | backend/src/helpers/extraction-processor.helper.ts:68-84 | Over every run the dropped rows are exactly those held by flushes whose enqueue rejected, in that order, and there are none exactly when no enqueue of a flush that holds rows rejects |
| PipelineFlush.RejectedFlushDropsARow | backend/src/helpers/extraction-processor.helper.ts:68-84 | One row of each class and a rejected enqueue: the ambiguous row is counted as processed but neither enriched nor counted as ambiguous |
| PipelineFlush.EveryFlushDrains | backend/src/helpers/extraction-processor.helper.ts:65-84 | Over every run each flush that found a queue is still under way, or has resolved by draining it, or has rejected |
| PipelineEnd.SequentialDispatchIsChunking | backend/src/helpers/extraction-processor.helper.ts:46-84 | A caller that awaits each row and then flushes dispatches each class in source order in batches of exactly 5000 and 50 with only the last shorter: ceil(D / 5000) enqueues, ceil(A / 50) enrichments, exact statistics |
| ExtractionProcessors.BatchHelper.ProcessRow | backend/src/helpers/batch.helper.ts:63-80 | The row is appended to the buffer of its class and the other buffer is unchanged |
| ExtractionProcessors.BatchHelper.FlushDeterministic | backend/src/helpers/batch.helper.ts:168-172 | Returns the deterministic buffer and empties it, touching nothing else |
| ExtractionProcessors.BatchHelper.FlushAmbiguous | backend/src/helpers/batch.helper.ts:174-178 | Returns the ambiguous buffer and empties it, touching nothing else |
| ExtractionProcessors.BatchHelper.FlushAll | backend/src/helpers/batch.helper.ts:180-185 | Returns and empties both buffers in one uninterrupted step |
| ExtractionProcessors.ExtractionProcessor.constructor | backend/src/helpers/extraction-processor.helper.ts:20-33 | A new processor is in the initial state of the protocol |
| ExtractionProcessors.ExtractionProcessor.ProcessRow | backend/src/helpers/extraction-processor.helper.ts:35-63 | The segment of `processRow` up to its first await is the protocol action `Call` |
| ExtractionProcessors.ExtractionProcessor.CheckDeterministic | backend/src/helpers/extraction-processor.helper.ts:192-201 | A full deterministic buffer is counted, taken and awaited; otherwise the call goes on to the ambiguous check |
| ExtractionProcessors.ExtractionProcessor.CheckAmbiguous | backend/src/helpers/extraction-processor.helper.ts:203-211 | A full ambiguous buffer is counted, taken and awaited; otherwise the row is pushed |
| ExtractionProcessors.ExtractionProcessor.Push | backend/src/helpers/extraction-processor.helper.ts:54-62 | The row reaches the buffer of its class and `processedCount` grows by one |
| ExtractionProcessors.ExtractionProcessor.Flush | backend/src/helpers/extraction-processor.helper.ts:65-84 | The segment of `flush` up to its first await is the protocol action `Flush`: both buffers are taken at once, only the deterministic one is counted |
| ExtractionProcessors.ExtractionProcessor.FlushAmbiguous | backend/src/helpers/extraction-processor.helper.ts:76-83 | The held ambiguous rows are counted only when this segment runs |
| ExtractionProcessors.ExtractionProcessor.Resume | backend/src/helpers/extraction-processor.helper.ts:46-84 | Whatever a suspended activity does when its promise resolves or rejects is the protocol action `Resume` |
| ExtractionProcessors.ExtractionProcessor.GetStats | backend/src/helpers/extraction-processor.helper.ts:86-92 | Reports the three counters of the protocol state |
| ExtractionProcessors.ExtractRows | backend/src/helpers/extraction-processor.helper.ts:35-92 | Awaiting every row and flushing reports the number of rows, of deterministic rows and of ambiguous rows |
| PdfLayout.GroupIntoYBands | backend/src/services/extractDigitalPDF.ts:169-190 | The loop over the sorted items computes the greedy bands |
| PdfLayout.YBandsAreGreedy | backend/src/services/extractDigitalPDF.ts:169-190 | Bands concatenate to the input, none is empty, each stays within 12 of its first item, and each new first item is more than 12 from the one before |
| PdfLayout.BandSpread | backend/src/services/extractDigitalPDF.ts:169-190 | On sorted input every item of a band lies at most 12 above its first item |
| PdfLayout.AnchorsApart | backend/src/services/extractDigitalPDF.ts:169-190 | On sorted input the first items of any two bands are more than 12 apart |
| PdfLayout.BandingIsOptimal | backend/src/services/extractDigitalPDF.ts:141-142 | The bands cover the page, and no cover by groups of y-spread at most 12, contiguous or not, overlapping or not, has fewer groups |
| PdfLayout.GroupByXGaps | backend/src/services/extractDigitalPDF.ts:192-214 | The loop over the items sorted by x computes the gap clusters |
| PdfLayout.XClustersSplitAtGaps | backend/src/services/extractDigitalPDF.ts:192-214 | Clusters concatenate to the sorted band, steps inside a cluster are at most 25, steps between neighbours more than 25 |
| PdfLayout.ClustersAreComponents | backend/src/services/extractDigitalPDF.ts:192-214 | Two items of a band are in the same cluster exactly when a path of x-distances at most 25 inside the band connects them |
| PdfLayout.SortSorts | backend/src/services/extractDigitalPDF.ts:141-141 | Sorting by a coordinate orders the items and keeps them as a multiset |
| PdfVariance.MeanMinimises | backend/src/services/extractDigitalPDF.ts:238-244 | The sum of squared distances is smallest about the mean |
| PdfVariance.PairwiseIsDeviation | backend/src/services/extractDigitalPDF.ts:238-244 | The variance in its pairwise form: n times the squared distances to the mean is the sum of squared differences of all pairs |
| PdfVariance.SpreadBoundsVariance | backend/src/services/extractDigitalPDF.ts:238-244 | Values inside an interval of length 2h have variance at most h squared |
| PdfVariance.GapsBoundVariance | backend/src/services/extractDigitalPDF.ts:238-244 | Sorted values with gaps at most 25 have variance at most 625 (n squared - 1) / 12 |
| PdfBlocks.GroupSpatially | backend/src/services/extractDigitalPDF.ts:133-167 | The nested loops over bands and clusters build the blocks in order |
| PdfReading.BlockReadsLeftToRight | backend/src/services/extractDigitalPDF.ts:152-162 | The items of every block run in ascending x, and its text holds theirs in that order, each at the sum of the lengths before it and one more for each, after a blank but the first |
| PdfReading.ReadingOrder | backend/src/services/extractDigitalPDF.ts:141-163 | The blocks of a page are the clusters of the first band, then those of the next; their items together are the bands in order, each sorted by x |
| PdfReading.EarlierIsHigherOrLeft | backend/src/services/extractDigitalPDF.ts:141-163 | Of any two items of a page the one read earlier has the smaller y, or lies within 12 of it and not to the right |
| PdfReading.SortIsStable | backend/src/services/extractDigitalPDF.ts:141-141 | Items with the same coordinate keep their order |
| PdfBlocks.EveryItemInOneBlock | backend/src/services/extractDigitalPDF.ts:133-167 | Over all blocks of a page every input item occurs exactly once |
| PdfBlocks.BlockTypes | backend/src/services/extractDigitalPDF.ts:216-244 | On every page a block has y variance at most 36, is never a header, is a table exactly when it has three items and x variance over 5000, and a table has at least ten items |
| PdfBlocks.TenCanBeATable | backend/src/services/extractDigitalPDF.ts:216-236 | Ten items 25 apart on one line do form a table, so ten is the least number |
| PdfBlocks.BoxIsTight | backend/src/services/extractDigitalPDF.ts:246-253 | The bounding box of a block contains all its items and each side touches one of them |
| XlsxHeader.Improve | backend/src/services/extractXLSX.ts:543-547 | The step both scoring loops end with keeps the first greatest score so far and its row |
| XlsxHeader.TallyRow | backend/src/services/extractXLSX.ts:593-603 | The cells of one row are counted by type in the columns of the range, and nothing else changes |
| XlsxHeader.TallyColumns | backend/src/services/extractXLSX.ts:582-604 | The tallies filled by the nested loops hold, for each column of the range, the numbers of texts and of numbers in the candidates below the first |
| XlsxHeader.CountMatchingColumns | backend/src/services/extractXLSX.ts:610-627 | The loop over a header counts its texts that stand over a column with mostly texts |
| XlsxHeaderCells.ScannedRowsAre | backend/src/services/extractXLSX.ts:471-512 | The scan holds the first hundred rows of the range; each is described by its number and by how many of its cells in the range are filled, are texts, are numbers |
| XlsxHeaderCells.HeaderRowIs | backend/src/services/extractXLSX.ts:515-551 | In terms of cells: with two rows of two filled cells the header is the first whose score is greatest, 40 times its share of texts, 25 if the next such row has more numbers, 15 if over three tenths of that row are numbers, 5 for each filled cell, less 2 for each row above; a single such row is the header; and without one it is the first row with a filled cell |
| XlsxHeaderCells.TextRowOverDataIsHeader | backend/src/services/extractXLSX.ts:444-469 | A first row of two texts or more and nothing else is the header, if every scanned row below with two filled cells has no more of them and numbers in over three tenths of them |
| XlsxHeaderCells.TallyIs | backend/src/services/extractXLSX.ts:582-604 | The tallies of a column are the numbers of rows below the first candidate with a text, and with a number, in it |
| XlsxHeaderCells.MatchingColumnsAre | backend/src/services/extractXLSX.ts:610-627 | The matching columns of a header are those in which a text stands over more texts than numbers |
| XlsxHeader.ScanRows | backend/src/services/extractXLSX.ts:493-512 | The scan describes the first hundred rows of the range in order, or throws exactly when reading one of their cells throws |
| XlsxHeader.DetectByHeaderDataTransition | backend/src/services/extractXLSX.ts:515-551 | Returns the first best transition among all rows with two cells but the last |
| XlsxHeader.DetectByColumnConsistency | backend/src/services/extractXLSX.ts:570-639 | Returns the first row with the best column-consistency score, computed from the tallies |
| XlsxHeader.DetectHeaderRowNumber | backend/src/services/extractXLSX.ts:444-469 | The four strategies and the fallback together compute the three-case header row, unless reading one of the scanned cells throws |
| XlsxHeader.CascadeIsHeaderRow | backend/src/services/extractXLSX.ts:455-468 | With two candidate rows the answer is the first argmax of the transition score, with one that row, with none the first row with content; string dominance and column consistency never change it |
| XlsxHeader.HeaderRowExists | backend/src/services/extractXLSX.ts:641-653 | No header row is found exactly when all scanned cells are empty, and a row that is found has a non-empty cell |
| XlsxScan.FindLastNonEmptyIndex | backend/src/services/extractXLSX.ts:700-712 | The last index with a non-empty cell, or -1 when there is none |
| XlsxScan.GridBelow | backend/src/services/extractXLSX.ts:195-203 | Every row below the header that can be read has exactly as many values as there are headers |
| XlsxScan.HandleRow | backend/src/services/extractXLSX.ts:251-277 | A row that was read and is not empty yields its candidate, nothing for a note, the rejections of the validator, or the exception of the mapping |
| XlsxScan.ProcessRow | backend/src/services/extractXLSX.ts:375-423 | One pass over a row that is not empty, with its catch: an exception of reading, mapping or the callback becomes one warning |
| XlsxScan.CollectRows | backend/src/services/extractXLSX.ts:213-288 | The collecting loop stops at the first row that is the hundredth empty one of a run, and yields the candidates and warnings of the rows before; a row whose reading throws is warned about and neither counts nor interrupts the run |
| XlsxScan.DeliverRows | backend/src/services/extractXLSX.ts:366-426 | The delivering loop processes the same rows and hands over the same candidates whatever the callback does, on the same or on other deliveries |
| XlsxScan.ProcessSheet | backend/src/services/extractXLSX.ts:164-298 | Nothing without a range or a header row, an exception if a cell of the header scan cannot be read, and else the scan of the grid below the header row |
| XlsxScan.ProcessSheetWithBackpressure | backend/src/services/extractXLSX.ts:336-427 | The same statement for the loop that awaits a callback for each candidate |
| XlsxScan.LimitUnique | backend/src/services/extractXLSX.ts:239-246 | (supporting) The stopping point is determined by the rows alone |
| XlsxScan.StopsAfterHundredEmptyRows | backend/src/services/extractXLSX.ts:239-249 | When every row can be read the scan stops exactly where a hundred consecutive empty rows end |
| XlsxScan.ScanDeliversDataRows | backend/src/services/extractXLSX.ts:224-273 | Below a detected header the validator rejects nothing: exactly the rows that are neither empty nor notes are mapped and delivered, and all warnings are exceptions of reading, mapping or the callback |
| XlsxScan.DataRowsAscend | backend/src/services/extractXLSX.ts:217-235 | Data rows come in strictly increasing row order, numbered from the row below the header |
| XlsxScan.BothLoopsAgree | backend/src/services/extractXLSX.ts:366-426 | On every sheet both methods throw or neither does; they process the same rows and hand over the same candidates whatever the callback does on each delivery, namely the mapped data rows of the processed part; with a callback that never throws their results are equal |
| XlsxScan.CleanScan | backend/src/services/extractXLSX.ts:366-426 | With readable rows, and a mapping and a callback that do not throw, there is no warning and one candidate for each data row |
| XlsxRecords.ColumnsEndAtLastHeader | backend/src/services/extractXLSX.ts:195-202 | There is a column for each cell of the header row up to the last that is not empty |
| XlsxRecords.HeadersAreWords | backend/src/services/extractXLSX.ts:201-203 | A column is called by the words of its header cell, joined by underscores, or column_k without any, and repeated names are numbered |
| XlsxRecords.RowsAreCells | backend/src/services/extractXLSX.ts:217-229 | The scanned rows are those of the range below the header; one is read exactly when no cell under a header is invalid, and then it holds these cells of the sheet |
| XlsxRecords.RowIsRecoverableIff | backend/src/services/extractXLSX.ts:201-203 | A row read below a header keeps one entry per column exactly when no header is already called what the numbering makes of a repeated one; each entry is then the trimmed text of the cell of the sheet in that column, or null exactly when that text is empty |
| XlsxRecords.NoteIff | backend/src/services/extractXLSX.ts:714-723 | A note is a row whose first cell is a text of more than 25 characters, trimmed, and whose other cells are empty |
| XlsxRecords.DeliveredIff | backend/src/services/extractXLSX.ts:224-273 | A record with the number of a row is delivered exactly when the cells of the row under the headers are valid, one is filled, and the row is not a note |
| XlsxRecords.DataRowsAre | backend/src/services/extractXLSX.ts:224-273 | The records are those of the data rows, in order |
| XlsxRecords.WarningsAre | backend/src/services/extractXLSX.ts:274-287 | The warnings are exactly the exceptions of reading, mapping and the callback, each with its message and the number of its row, in row order |
| XlsxScan.HeaderIsNotEmpty | backend/src/services/extractXLSX.ts:201-203 | A header row that is found has at least one header |
| RowValidation.RowValidationHelper.SetRequiredHeaders | backend/src/helpers/row-validation.helper.ts:14-16 | Replaces the required headers and nothing else |
| RowValidation.RowValidationHelper.SetHeaderCount | backend/src/helpers/row-validation.helper.ts:18-20 | Replaces the header count and nothing else |
| RowValidation.RowValidationHelper.ValidateRow | backend/src/helpers/row-validation.helper.ts:22-60 | Reports a column count mismatch, the missing required headers and an all-blank row, each exactly when it applies and in this order |
| RowValidation.RowValidationHelper.ParseRow | backend/src/helpers/row-validation.helper.ts:62-75 | Stores the trimmed value of each column under its header, later columns overwriting earlier ones of the same name |
| RowValidation.LastColumnWins | backend/src/helpers/row-validation.helper.ts:65-69 | Whatever the headers, a record holds under a name what the last column of that name has: null without a value or for the null value or the empty text, else its text or numeral, trimmed |
| RowValidation.RejectedIff | backend/src/helpers/row-validation.helper.ts:22-60 | A row is accepted exactly when its width is the expected one, unless none is, every required header is there and a value is not blank; each reason is given exactly when it applies, with its details |
| RowValidation.ReasonsInOrder | backend/src/helpers/row-validation.helper.ts:22-60 | Each reason is given at most once, the width first and emptiness last |
| RowValidation.EmptyIsBlank | backend/src/services/extractXLSX.ts:725-731 | (supporting) The reader and the validator agree on which cells are empty |
| RowValidation.ParsedRowIsComplete | backend/src/helpers/row-validation.helper.ts:62-75 | A parsed row has one entry per column exactly when the headers are pairwise distinct, and then every column can be read back: the trimmed text of its value, or null exactly when there is none or its text is empty |
| RowValidation.FullRowIsAccepted | backend/src/helpers/row-validation.helper.ts:22-60 | (supporting) A row as long as the headers with a non-empty cell is accepted when no header is required |
| HeaderNames.NormalizeIsIdempotent | backend/src/utils/xlsx.utils.ts:34-40 | Normalised headers are words of letters and digits joined by single underscores, these are exactly the fixed points, and normalising twice is normalising once |
| HeaderNames.XlsxHeaderIsItsWords | backend/src/utils/xlsx.utils.ts:34-40 | A normalised header is the list of the maximal runs of letters and digits of its trimmed lower-case text, joined by single underscores |
| HeaderNames.NumberedIs | backend/src/utils/xlsx.utils.ts:19-31 | A name keeps its text exactly unless it stands in the list before, and then gets the number of its occurrences so far behind an underscore |
| HeaderNames.NumberHeaders | backend/src/utils/xlsx.utils.ts:19-31 | The k-th occurrence of a name becomes name_k, the first keeps its name |
| HeaderNames.NormalizeCsvHeaders | backend/src/utils/csv.utils.ts:11-25 | Each CSV header is normalised, or called column_i when nothing is left, and then numbered |
| HeaderNames.CsvHeaderIsIdempotent | backend/src/utils/csv.utils.ts:27-33 | A normalised CSV header has no white space, normalising it again changes nothing, and the step that strips a byte order mark never finds one because trimming removes it |
| HeaderNames.OtherHeadersAreTheirWords | backend/src/utils/csv.utils.ts:27-33 | A CSV header is the list of the maximal runs without white space of its trimmed text, joined by underscores and lowered; a reduced header the same of the lowered text, less all characters but letters, digits and underscores |
| HeaderNames.CsvBaseNameIs | backend/src/utils/csv.utils.ts:14-16 | A CSV column is called by these words, or column_i when nothing is left |
| HeaderNames.DuplicatesAre | backend/src/utils/header-normalizer.ts:14-21 | The duplicates reported are the new names of the repeated positions, in order |
| HeaderNames.NormalizeHeaders | backend/src/utils/header-normalizer.ts:5-27 | Each header is reduced and then numbered, and exactly the numbered ones are listed as duplicates |
| HeaderNames.ReducedHeaderIsFixed | backend/src/utils/header-normalizer.ts:10-12 | A reduced header consists of lower-case letters, digits and underscores, and reducing it again changes nothing |
| HeaderNames.NumberingIsInjectiveIff | backend/src/utils/csv.utils.ts:14-24 | The numbered names are pairwise distinct exactly when no name in the list equals a generated one |
| HeaderNames.NumberingCanClash | backend/src/utils/csv.utils.ts:14-24 | Headers a, a, a_2 produce a_2 twice |
| PersistenceQueue.PendingLaw | backend/src/helpers/batch-persistence-queue.helper.ts:91-107 | Under every order of events `pendingCount` is queued - completed - failed plus the number of clamped decrements |
| PersistenceQueue.ClampedIsDepth | backend/src/helpers/batch-persistence-queue.helper.ts:92-107 | The clamped decrements are the deepest point the net count reaches below zero |
| PersistenceQueue.PendingIsGreatestSuffix | backend/src/helpers/batch-persistence-queue.helper.ts:91-149 | The counter in closed form: the greatest net count over the suffixes of the history |
| PersistenceQueue.SettledIffNeverNegative | backend/src/helpers/batch-persistence-queue.helper.ts:142-149 | Once every added job has ended the counter is back at zero exactly when no end was handled before its addition was counted |
| PersistenceQueue.FastWorkerLeavesCounterAtOne | backend/src/helpers/batch-persistence-queue.helper.ts:142-149 | (supporting) A worker faster than `queue.add` leaves the counter at one with nothing pending |
| PersistenceQueue.BatchPersistenceQueue.constructor | backend/src/helpers/batch-persistence-queue.helper.ts:32-49 | All counters start at zero and the queue is not initialised |
| PersistenceQueue.BatchPersistenceQueue.Initialize | backend/src/helpers/batch-persistence-queue.helper.ts:55-72 | The queue is ready for `enqueue` and no counter changes |
| PersistenceQueue.BatchPersistenceQueue.OnCompleted | backend/src/helpers/batch-persistence-queue.helper.ts:91-92 | Completed grows by one and the pending count falls, clamped at zero |
| PersistenceQueue.BatchPersistenceQueue.OnFailed | backend/src/helpers/batch-persistence-queue.helper.ts:104-108 | Failed grows and pending falls, clamped, only when the event carries a job |
| PersistenceQueue.BatchPersistenceQueue.OnAdded | backend/src/helpers/batch-persistence-queue.helper.ts:148-149 | Pending and queued grow by one |
| PersistenceQueue.BatchPersistenceQueue.WaitForDrain | backend/src/helpers/batch-persistence-queue.helper.ts:158-173 | The wait takes exactly the turns the environment dictates: on while the counter is at four fifths of the limit or above and a minute is not over, timing out exactly when it is over after a turn; the counters afterwards are those of the events of these turns; at most 121 turns |
| PersistenceQueue.BatchPersistenceQueue.WaitForCompletion | backend/src/helpers/batch-persistence-queue.helper.ts:203-220 | The same for a counter of zero and half a minute, at most 301 turns, and the counter is reset at the end |
| PersistenceQueue.BatchPersistenceQueue.Enqueue | backend/src/helpers/batch-persistence-queue.helper.ts:125-156 | Fails when not initialised and does nothing for an empty batch; a full queue first waits; then, timeout or not, the job is added and counted once `queue.add` has resolved, after whatever ran meanwhile |
| PersistenceQueue.DrainAfter | backend/src/helpers/batch-persistence-queue.helper.ts:203-220 | The drain ends as the wait for zero from its counters does, with the counters of all events, and one that does not time out has seen completed + failed >= queued |
| PersistenceQueue.SettledDrainTimesOutIff | backend/src/helpers/batch-persistence-queue.helper.ts:203-220 | When every added job has ended and nothing more happens, the final drain still waits for its timeout exactly when some end was handled before its addition was counted |
| PersistenceQueue.QuietWaitTimesOutIff | backend/src/helpers/batch-persistence-queue.helper.ts:158-173 | A wait during which nothing happens times out exactly when the counter was not good enough at its start, and otherwise takes no turn |
| PersistenceQueue.WaitIsDetermined | backend/src/helpers/batch-persistence-queue.helper.ts:203-218 | The environment alone decides how many turns a wait takes and how it ends |
| Persistence.ExtractedAssetFieldRepository.SaveSlices | backend/src/repositories/extracted-asset-field.repository.ts:79-107 | Saving in slices of a hundred appends all rows in order, or reports the first slice that throws |
| Persistence.ExtractedAssetFieldRepository.BulkInsertWithTransaction | backend/src/repositories/extracted-asset-field.repository.ts:62-116 | All or nothing: on success exactly the named rows are appended in order and counted, on any failure the table is as before; the slice size does not show |
| Persistence.TransformCandidatesToInsertData | backend/src/services/extraction-persistence.service.ts:114-162 | One row per candidate with data, in order, with its document, job, name, data, confidence, position and the constant columns; null candidates and those without data are skipped |
| Persistence.TransformedAreNamed | backend/src/services/extraction-persistence.service.ts:114-162 | No transformed row is dropped by the repository for lack of a field name |
| PersistenceRows.HasDataIff | backend/src/services/extraction-persistence.service.ts:121-129 | (supporting) A candidate is stored exactly when it has a raw record with columns, or no raw record and a normalised one with columns |
| PersistenceRows.StoredRowIs | backend/src/services/extraction-persistence.service.ts:131-158 | The row holds the raw record, or else the normalised one, as its raw value and the normalised one, if any, as its normalised value, with the name, confidence and row index of the candidate or their stated defaults |
| PersistenceRows.TransformedAre | backend/src/services/extraction-persistence.service.ts:114-162 | The rows to insert are those of the candidates with data, in order |
| PersistenceRows.InsertOutcomeIs | backend/src/repositories/extracted-asset-field.repository.ts:62-116 | An insertion of named rows succeeds exactly when connecting, beginning, saving every slice of a hundred and committing do, and otherwise reports the first of these that fails |
| PersistenceRows.ErrorsAre | backend/src/services/extraction-persistence.service.ts:96-104 | A failed transaction reports each of its candidates in order by its own row index, a successful one nothing |
| Persistence.PersistBatchWithTransaction | backend/src/services/extraction-persistence.service.ts:46-78 | Either the transformed candidates are in the table, or it is unchanged and there is one error for each candidate in order; all candidates are reported as saved assets either way; only a failure with a null candidate in the batch is thrown |
| Persistence.PersistBatch | backend/src/services/extraction-persistence.service.ts:22-44 | Chunks are independent: the table gains in order the rows of exactly the chunks that succeeded, the errors are those of exactly the others, `savedFields` is the number of rows gained; a chunk whose report throws ends the batch with the chunks before it saved |
| Persistence.StoredReportedOrUntraced | backend/src/services/extraction-persistence.service.ts:22-44 | Rows stored, errors reported and candidates skipped in successful chunks add up to the candidates |
| Persistence.EveryCandidateIsAccountedForIff | backend/src/services/extraction-persistence.service.ts:22-44 | Stored rows and errors account for all candidates exactly when no successful chunk contains a candidate without data |
| Persistence.SavedAssetsIsRightIff | backend/src/services/extraction-persistence.service.ts:46-78 | The number of saved assets reported, which is that of the candidates, is the number of rows the table gained exactly when every chunk succeeded and every candidate has data |
| Persistence.SavedAssetsCanBeWrong | backend/src/services/extraction-persistence.service.ts:46-78 | A candidate whose transaction cannot connect is reported as saved and stored nowhere |
| Persistence.ChunkSizeIsInvisible | backend/src/services/extraction-persistence.service.ts:186-192 | Without failures the table gains the transformed candidates in order whatever the chunk size |
| Sequences.ChunkArray | backend/src/services/extraction-persistence.service.ts:186-192 | The slicing loop computes the consecutive chunks |
| Sequences.ChunkShape | backend/src/services/llmService/enrichment.service.ts:246-252 | Chunks concatenate to the input, none is empty, all but the last are full |
| Sequences.ChunkCount | backend/src/services/llmService/enrichment.service.ts:246-252 | The number of chunks is the length divided by the size, rounded up |
| Enrichment.SafeBatchSize | backend/src/services/llmService/enrichment.service.ts:39-39 | A batch size from 1 to 100 is kept, a smaller one becomes 1, a larger one 100 |
| Enrichment.ExtractCurrency | backend/src/services/llmService/enrichment.service.ts:145-168 | The upper-case text when that is one of the fourteen known codes, and undefined otherwise |
| Enrichment.EnrichBatch | backend/src/services/llmService/enrichment.service.ts:170-234 | A reply that throws fails the batch; any other reply, missing elements and non-arrays included, gives one output per row and an error for each row it does not answer |
| Enrichment.ReportFailedBatch | backend/src/services/llmService/enrichment.service.ts:57-62 | One error per row of the failed batch, in order |
| Enrichment.FailedBatch | backend/src/services/llmService/enrichment.service.ts:51-63 | In the row-by-row description too, a failed batch contributes no output and exactly these errors |
| Enrichment.ProcessBatch | backend/src/services/llmService/enrichment.service.ts:30-67 | The result is described row by row with the batches gone: row p contributes what place p mod size of reply p div size says |
| Enrichment.EveryRowIsAccountedFor | backend/src/services/llmService/enrichment.service.ts:30-67 | Outputs and batch-failure errors add up to the rows; all errors together are one for each row the model did not answer |
| EnrichmentAnswers.EveryRowGetsItsAnswer | backend/src/services/llmService/enrichment.service.ts:203-217 | If every row is answered, output p is the element at place p mod size of the answer to batch p div size, for every p, and there are no errors |
| EnrichmentAnswers.OutputsAreAnswers | backend/src/services/llmService/enrichment.service.ts:203-226 | Over any replies the outputs are, for the rows whose batch came back in order, that element, or the empty enrichment where the answer is no array, too short, or has a hole there |
| EnrichmentAnswers.ErrorsAreUnanswered | backend/src/services/llmService/enrichment.service.ts:51-63 | The errors are those of the unanswered rows in order, each with the index of its row and the reason of its batch |
| EnrichmentAnswers.AnsweredDocument | backend/src/services/llmService/enrichment.service.ts:84-124 | The outputs of a document whose rows are all answered: the direct ones, then for each row sent to the model its own element |
| EnrichmentAnswers.GoesPastTheModelIff | backend/src/services/llmService/enrichment.service.ts:127-143 | (supporting) A row goes past the model exactly when currency, jurisdiction and both coordinates are mapped or given |
| EnrichmentAnswers.DirectOutputIs | backend/src/services/llmService/enrichment.service.ts:94-109 | The output of such a row holds the text of its name column and the code in its currency column, and nothing else |
| Enrichment.OutputsBelongToSurvivors | backend/src/services/llmService/enrichment.service.ts:203-217 | Output k is the output of the k-th row whose batch came back |
| Enrichment.InferSchemaAndEnrich | backend/src/services/llmService/enrichment.service.ts:84-124 | Direct outputs first, then those of the rows sent to the model, with the errors of the latter |
| Enrichment.SourcesAreOrigins | backend/src/services/llmService/enrichment.service.ts:87-124 | The combined output is never longer than the input and each entry is made from the row at its source position |
| Enrichment.NoRowIsLost | backend/src/services/llmService/enrichment.service.ts:87-124 | Combined outputs and rows reported in failed batches add up to the input |
| Enrichment.PairingIsRightIff | backend/src/services/llmService/llm.service.ts:127-129 | Pairing output k with input row k is right for every k exactly when the rows that need the model follow all others and failed batches follow all that came back |
| Enrichment.PairingCanBeWrong | backend/src/services/llmService/llm.service.ts:127-129 | Without any failure the pairing is wrong for two rows of which only the first needs the model |
| SchemaMapping.DeterministicColumnProfile | backend/src/services/llmService/schema-inference.service.ts:115-173 | Exactly the columns are profiled, each from its first ten sampled values and its name |
| SchemaMeaning.PresentValuesAre | backend/src/services/llmService/schema-inference.service.ts:130-133 | A column is profiled by exactly the values of the first ten rows that are neither null nor empty text |
| SchemaMeaning.ProfileTypeIs | backend/src/services/llmService/schema-inference.service.ts:135-149 | It is empty without such a value, and holds numbers, else dates, else truth values, if all of them are, and text in all other cases |
| SchemaMeaning.ProfilePatternIff | backend/src/services/llmService/schema-inference.service.ts:151-162 | It is a coordinate exactly when it holds numbers under a coordinate name, and a currency exactly when its name contains "curr" or a value is a currency code |
| SchemaMapping.FindField | backend/src/services/llmService/schema-inference.service.ts:361-394 | The nested loops return the first field in table order one of whose keywords the name contains |
| SchemaMapping.DecideColumn | backend/src/services/llmService/schema-inference.service.ts:345-395 | Emptiness, coordinate and currency patterns are tried before the keywords |
| SchemaMapping.CreateManualSchema | backend/src/services/llmService/schema-inference.service.ts:325-433 | A field is mapped exactly when some column decides for it, to the earliest such column, with confidence 0.8 and no alternatives; the unmapped columns are those without any pattern, with that reason; each column has its analysis; the quality is that of the number of mapped fields; and one note is given |
| SchemaMeaning.RoleIff | backend/src/services/llmService/schema-inference.service.ts:341-395 | For each role, exactly which columns get it: by emptiness, by a pattern, or by the field their name leads to |
| SchemaMeaning.MappedColumnHasRole | backend/src/services/llmService/schema-inference.service.ts:361-394 | The column a field is mapped to has the role of that field and confidence 0.8 |
| SchemaMeaning.AnalysisHolds | backend/src/services/llmService/schema-inference.service.ts:401-413 | A column has the type of its profile, and for samples the values of the first five rows that are not null |
| SchemaMeaning.QualityIs | backend/src/services/llmService/schema-inference.service.ts:416-428 | The schema needs review exactly when no two fields can be mapped, counts completeness in quarters, which is above one from five fields on, and is called ambiguous exactly when none is mapped |
| SchemaMapping.AnalysisMeans | backend/src/services/llmService/schema-inference.service.ts:397-417 | (supporting) A role is unknown exactly for the unmapped columns, and full confidence exactly for those taken by a pattern before the keywords |
| SchemaMapping.ManualMappingIsSound | backend/src/services/llmService/schema-inference.service.ts:337-418 | No column serves two fields, mapped columns are inputs that are not empty, coordinate or currency by profile, and none is also unmapped |
| SchemaMapping.ManualMappingIsUnique | backend/src/services/llmService/schema-inference.service.ts:383-389 | (supporting) Columns and profile determine the mapping |
| SchemaMeaning.StrippedIs | backend/src/services/llmService/schema-inference.service.ts:339-339 | Keywords are looked for in the words of the lower-case column name, put together without anything between |
| SchemaMapping.FirstFieldIff | backend/src/services/llmService/schema-inference.service.ts:361-394 | A name leads to a field of the table exactly when it contains one of its keywords and none of the fields before it |
| SchemaMapping.FieldIsMappedIff | backend/src/services/llmService/schema-inference.service.ts:337-395 | Each of the seven fields is mapped exactly when some column has values, is taken by no pattern, and has a name that leads to the field |
| SchemaMapping.CurrencyIsMappedIff | backend/src/services/llmService/schema-inference.service.ts:345-394 | The currency field is mapped exactly when some column has values, is no coordinate, has no sample that is a currency code, has other characters interrupting "curr" in its lower-case name, and no keyword of asset names or values in it |
| SchemaMapping.PlainNamesLoseCurrency | backend/src/services/llmService/schema-inference.service.ts:345-394 | So no plainly named column is ever mapped as currency, and a plainly named column mapped as latitude or longitude is not numeric |
| SchemaMapping.ColumnAnalysis.constructor | backend/src/services/llmService/schema-inference.service.ts:219-219 | A column object holds the contents it is built from |
| SchemaMapping.ColumnAnalysis.Correct | backend/src/services/llmService/schema-inference.service.ts:221-249 | The three successive overwrites leave the currency role over the coordinate role over irrelevance |
| SchemaMapping.MergeWithDeterministic | backend/src/services/llmService/schema-inference.service.ts:207-275 | Every column object holds its corrected contents afterwards, even one listed twice, and each mapping entry is corrected |
| SchemaMapping.CorrectEntry | backend/src/services/llmService/schema-inference.service.ts:251-272 | An entry gains full confidence exactly when the profile confirms its field |
| SchemaMapping.CorrectEntries | backend/src/services/llmService/schema-inference.service.ts:251-272 | Exactly the entries present are corrected, each once |
| SchemaMeaning.CorrectedIs | backend/src/services/llmService/schema-inference.service.ts:221-249 | A profiled currency is a currency whatever else it is, else a coordinate is a latitude or longitude by its name, else an empty column is irrelevant, and any other column stays as it is |
| SchemaMeaning.CorrectedEntryIs | backend/src/services/llmService/schema-inference.service.ts:251-272 | The confidence of an entry becomes 1 exactly when its column is profiled with the meaning of its field, and its column never changes |
| SchemaMapping.CorrectionIsIdempotent | backend/src/services/llmService/schema-inference.service.ts:221-249 | (supporting) Correcting a column twice is correcting it once, and its name stays |
| SchemaMapping.MergeIsIdempotent | backend/src/services/llmService/schema-inference.service.ts:251-272 | (supporting) Correcting an entry twice is correcting it once, its column never changes, and its confidence only ever becomes 1 |
| SchemaMapping.EmptyColumnsAreIrrelevant | backend/src/services/llmService/schema-inference.service.ts:225-248 | A column without sampled values is marked empty and irrelevant unless its name contains "curr" |
| LlmValidation.ValidateEnrichmentOutput | backend/src/helpers/llm-validation.helper.ts:19-66 | The issues are those of latitude, longitude, currency and name in this order, with their texts and the verdict and penalty they imply; or the first exception of these four checks |
| LlmValidation.CheckCurrency | backend/src/helpers/llm-validation.helper.ts:156-186 | A currency that is no text throws when its length is 3 and is a format issue otherwise |
| LlmValidation.CheckName | backend/src/helpers/llm-validation.helper.ts:43-55 | A name that is given throws unless it is a text |
| LlmValidation.ScorableIff | backend/src/helpers/llm-validation.helper.ts:19-296 | (supporting) Validating and scoring an output ends without an exception exactly when its signals are given, a given name is a text, so is a currency of length 3, and its coordinates convert to numbers |
| ScoreMeaning.IssueIff | backend/src/helpers/llm-validation.helper.ts:19-186 | Each of the eight codes is raised exactly under its own condition on the properties of the output |
| ScoreMeaning.IssuesInOrder | backend/src/helpers/llm-validation.helper.ts:19-66 | There is at most one issue for a property, and they follow the order of the checks |
| ScoreMeaning.MessagesTell | backend/src/helpers/llm-validation.helper.ts:84-184 | The message about a range begins with the printed coordinate, that about a precision with the number of decimals, that about an unknown currency with the capital text |
| ScoreMeaning.WeightsAre | backend/src/helpers/llm-validation.helper.ts:196-217 | The weight of a list is 0.4 for each critical issue, 0.3 for each high, 0.2 for each medium and 0.1 for each low one |
| LlmValidation.CalculateValidationPenalty | backend/src/helpers/llm-validation.helper.ts:196-217 | Minus the total weight of the issues, but not below -1 |
| LlmValidation.ValidIff | backend/src/helpers/llm-validation.helper.ts:19-66 | An output on which the validator does not throw is valid exactly when its coordinates are finite and in range, its currency has length three and its name is not blank; it has no issue exactly when moreover no coordinate prints with over six decimal places and the currency is listed |
| LlmValidation.DecimalPlacesIs | backend/src/helpers/llm-validation.helper.ts:188-194 | The places counted are those after the point of a plain decimal; an exponent form without a point counts none, and with one its exponent counts as places |
| LlmValidation.CalculateExactColumnMappingScore | backend/src/helpers/llm-validation.helper.ts:315-375 | The counting branches compute the ratio of filled to mapped fields and its factor |
| ScoreMeaning.FieldsAre | backend/src/helpers/llm-validation.helper.ts:324-347 | The counts are those of the mapped fields among four, and of the filled ones among these, one more for both coordinates |
| ScoreMeaning.MappingScoreIs | backend/src/helpers/llm-validation.helper.ts:349-375 | The mapping component is 0.3 from four fifths on, 0.1 from one half on, else nothing |
| LlmValidation.CalculateInferenceScore | backend/src/helpers/llm-validation.helper.ts:395-435 | The counting branches compute the share of inferred signals and its factor |
| ScoreMeaning.InferencePenaltyIff | backend/src/helpers/llm-validation.helper.ts:398-434 | The inference penalty applies exactly when some signals are reported and at least half of them say that a value was inferred |
| LlmValidation.Accumulate | backend/src/helpers/llm-validation.helper.ts:228-244 | Adding a component keeps the score at one half plus the scores of the factors listed so far |
| LlmValidation.CalculateConfidence | backend/src/helpers/llm-validation.helper.ts:219-309 | The overall confidence is one half plus the scores of exactly the reported factors, clamped to [0, 1], with the confidence of each field and the explanation; without signals it throws |
| ScoreMeaning.ConfidenceIs | backend/src/helpers/llm-validation.helper.ts:219-275 | The confidence in terms of the output: one half, plus 0.3 or 0.1 for filled mapped fields, 0.2 for an exact match, less 0.2 for inference, 0.3 for a missing field, the weight of the issues up to one and 0.3 if it asks for review, kept in [0, 1] |
| ScoreMeaning.ExplanationIs | backend/src/helpers/llm-validation.helper.ts:518-540 | The explanation gives the confidence in percent, exactly, and all reported reasons, those that raised it before those that lowered it |
| ScoreMeaning.ReasonsCount | backend/src/helpers/llm-validation.helper.ts:353-432 | The reasons of the counted factors begin with the two counts, the part before the whole |
| ScoreMeaning.FieldConfidenceIs | backend/src/helpers/llm-validation.helper.ts:277-296 | The confidence of a single field is 0.3 exactly when it is not filled, 0.7 when it is filled but inferred, and 0.9 otherwise |
| LlmValidation.OverallIs | backend/src/helpers/llm-validation.helper.ts:219-275 | The overall confidence component by component, with the clamped penalty of the issues |
| LlmValidation.ValidationFailedNeverArises | backend/src/helpers/llm-validation.helper.ts:486-495 | (supporting) The `validation_failed` factor never occurs for results of the validator |
| LlmValidation.AddingIssuesNeverRaisesConfidence | backend/src/helpers/llm-validation.helper.ts:196-275 | Inserting issues anywhere in the list never raises the confidence |
| LlmValidation.CriticalForcesReview | backend/src/helpers/llm-validation.helper.ts:196-275 | Any critical issue keeps the confidence at 0.6 or below |
| LlmValidation.ScoresAreTenths | backend/src/helpers/llm-validation.helper.ts:226-275 | Every confidence is a multiple of a tenth, so none lies strictly between 0.6 and 0.7 |
| LlmReview.ShouldEscalate | backend/src/helpers/llm-review.helper.ts:22-88 | The seven rules applied in turn give the reasons and raise the priority step by step to the highest |
| LlmReview.EscalationMeans | backend/src/helpers/llm-review.helper.ts:22-88 | Exactly the rules that hold are given, any of them escalates, and the priority is the highest of theirs |
| LlmReview.ReasonIff | backend/src/helpers/llm-review.helper.ts:22-88 | For each rule, exactly which rows meet it, in terms of their confidence and their issues |
| LlmReview.ReasonsInOrder | backend/src/helpers/llm-review.helper.ts:22-88 | Each reason is given at most once, in the order of the rules |
| LlmReview.MultipleInferencesNeverHolds | backend/src/helpers/llm-review.helper.ts:71-77 | A score has at most one inference factor, so the last rule is dead |
| LlmReview.EscalatesIff | backend/src/helpers/llm-review.helper.ts:22-88 | A row is escalated exactly when its confidence is below 0.65, or it has two issues, or an issue other than excessive precision |
| LlmReview.PriorityIs | backend/src/helpers/llm-review.helper.ts:22-88 | Priority 3 exactly for invalid outputs, else 2 for low confidence or two issues, else 1 for an unknown currency, else 0 |
| LlmEnrichment.CreateFlag | backend/src/services/llmService/llm.service.ts:155-187 | The reduction over severities and the choice of the flag type |
| LlmEnrichment.FlagNamesAnIssue | backend/src/services/llmService/llm.service.ts:156-173 | The flag carries the highest severity, and the type of the first serious issue if there is one, else of the first issue |
| LlmEnrichment.MaxSeverityIsMaximum | backend/src/services/llmService/llm.service.ts:166-171 | The reduced severity bounds all issues and is attained |
| LlmEnrichment.CreateEnrichedFieldData | backend/src/services/llmService/llm.service.ts:272-327 | The stored field: its name from the output, else from the paired input row, else made up; the truthy properties of the output; the confidence and the status; its explanation from the output, else from the scorer; the row index of the paired row |
| LlmEnrichment.FieldHolds | backend/src/services/llmService/llm.service.ts:289-308 | Field k keeps exactly the truthy texts of output k, its coordinates and its signals, and the data of row k |
| LlmEnrichment.FieldScores | backend/src/services/llmService/llm.service.ts:309-326 | Its confidence and status are those of output k, its explanation that of the output, else that of the score, and its row index that of row k, else zero |
| LlmEnrichment.FieldName | backend/src/services/llmService/llm.service.ts:282-286 | Its name is a text of the output, else what row k has in the name column, else made from the document and the position |
| LlmEnrichment.EnrichRow | backend/src/services/llmService/llm.service.ts:127-207 | One pass of the loop: the stored field, and the flag and review item the row calls for, or the first exception of validating and scoring |
| LlmEnrichment.ScoreRows | backend/src/services/llmService/llm.service.ts:127-207 | The loop pairs output k with input row k and yields one field per output, the review items and the flags in row order, or the exception of the first output that cannot be scored |
| LlmEnrichment.EnrichExtraction | backend/src/services/llmService/llm.service.ts:109-249 | Without a configured provider nothing; otherwise the fields, review items, flags and row errors of the whole document, or, if scoring throws, nothing but that exception. In every result field k is stored as REQUIRES_REVIEW exactly when its confidence is below 0.65, and has exactly one review item then; items and flags are about fields only |
| LlmEnrichment.NoticesAre | backend/src/services/llmService/llm.service.ts:217-223 | The errors are those of the unanswered rows sent to the model, in order, each with the reason of its batch |
| LlmEnrichment.OneMalformedAnswerDropsAllIff | backend/src/services/llmService/llm.service.ts:224-249 | A document loses everything, including the rows that never needed the model, exactly when the element answered for one row sent to the model has no signals, a name that is no text, a currency of length 3 that is no text, or a coordinate that does not convert |
| LlmEnrichment.OneMalformedAnswerCanDropAll | backend/src/services/llmService/llm.service.ts:224-249 | Two rows and an answer without properties: the row that did not need the model is lost too |
| LlmEnrichment.ReviewItemsMember | backend/src/services/llmService/llm.service.ts:197-206 | A row has at most one review item, and has one exactly when it is escalated |
| LlmEnrichment.ReviewItemsAre | backend/src/services/llmService/llm.service.ts:197-206 | The review items are those of the escalated rows, in row order, with their reasons and priority |
| LlmEnrichment.ValidationFlagsAre | backend/src/services/llmService/llm.service.ts:155-187 | The flags are those of the rows with issues, in row order, each with the highest severity and with the field and message of every issue |
| LlmEnrichment.EveryReviewRowIsQueued | backend/src/services/llmService/llm.service.ts:312-315 | Every field stored as REQUIRES_REVIEW has exactly one review item |
| LlmEnrichment.ApprovedAndQueuedIff | backend/src/services/llmService/llm.service.ts:197-206 | A row is stored as approved and yet queued exactly when its confidence is at least 0.65 and it has two issues or an issue other than excessive precision |
| LlmEnrichment.ApprovedRowCanBeQueued | backend/src/services/llmService/llm.service.ts:312-315 | Such rows exist: a blank name leaves a row approved yet queued with the highest priority |
| LlmEnrichment.UnansweredRowIsReviewed | backend/src/services/llmService/enrichment.service.ts:236-244 | A row the model did not answer is stored with confidence 0, requires review with priority 2, and carries no flag |
| LlmEnrichment.DirectRowIssues | backend/src/services/llmService/enrichment.service.ts:94-109 | A row that never reaches the model can only have the issue of a blank name |
| LlmEnrichment.DirectRowStatus | backend/src/services/llmService/enrichment.service.ts:94-109 | Such a row is approved exactly when no jurisdiction column is mapped, a mapped currency column holds a known code, and its name is not blank or else four fifths of the mapped fields are filled |

## Left out

- Classification of a row (`detectAmbiguity`, `buildSchemaMap`): an arbitrary verdict carried by the row; exceptions thrown while mapping or classifying inside `processRow` are not modelled.
- Delivery, retry and drain of the job queue, Redis, the worker lifecycle and the dispatcher: only the counters of the persistence queue are modelled, under arbitrary events; "dispatched" therefore does not mean "persisted".
- PersistenceQueue.BatchPersistenceQueue.WaitForDrain: each sleep is taken to last at least the requested 500 ms and the clock to be monotone; only the bound on the turns and the end of the wait rest on that.
- PersistenceQueue.BatchPersistenceQueue.WaitForCompletion: the same, with 100 ms; closing the queue and the `onJobComplete` entry point are not modelled.
- Persistence.PersistBatch: a chunk size of zero, with which the source never ends, is excluded.
- Persistence.ExtractedAssetFieldRepository.BulkInsertWithTransaction: the table is a sequence restored on rollback; concurrent transactions, and a rollback that itself fails, are not modelled, and any exception while a slice is built or saved counts as the failure of that slice.
- Persistence.TransformCandidatesToInsertData: the creation time is not part of the stored record, and a row index that is neither a number nor falsy is not modelled.
- Calls of the language model, its prompts and the timeout race: the reply is an arbitrary value, possibly an exception, not an array, too short, or with elements that are missing or carry properties of any kind.
- CSV, spreadsheet and PDF parsing and JSON: the inputs are rows, a grid of cells and positioned items; numbers occur through their printed form or through the verdicts of `parseFloat` and `Date`.
- Rounding of floating-point numbers: coordinates and scores are reals; `LlmValidation.ScoresAreTenths` shows that no score comes near the review threshold.
- LlmValidation.ValidateEnrichmentOutput: the number a coordinate converts to and the text printed for it are given with it; a coordinate given as an array is not modelled.
- LlmValidation.ValidIff: lengths count characters rather than UTF-16 units.
- Letter case outside the characters whose image meets a to z or A to Z is left unchanged, except for CSV headers, whose lowering is an arbitrary idempotent function that makes no white space.
- XlsxScan.BothLoopsAgree: one extraction at a time; the header count of the validator is shared by the service, and interleaved extractions would overwrite it. Mapping a parsed row to a candidate is an arbitrary function that may throw.
- SchemaMapping.MergeWithDeterministic: the column objects are updated in place, the entries of the field mapping are values, so two fields sharing one entry object are not modelled.
- LlmReview.ShouldEscalate: reasons are listed as values rather than joined text, and the substring tests on issue codes are replaced by the codes that pass them.
- LlmEnrichment.EnrichExtraction: schema inference has succeeded before; exceptions carry their cause rather than their message, and flags and review items carry the position of their field instead of its id.
- Controllers, authentication, logging, error mapping, configuration, entities, the enrichment coordinator (which repeats the batching without the interleavings), `findByJobIds`, status tables and the front end: no algorithm beyond what is covered here.
