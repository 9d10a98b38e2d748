# Verification of the affiliate platform's core

This project models the parts of the affiliate platform that other parts trust without looking, and
proves what they promise. Each is a module of its own; the class in a module carries the state the
source updates in place, a specification function says what each operation does to that state, and
the lemmas are about every input, every run or every interleaving.

| module | what it models |
|---|---|
| `CsvParse`, `CsvWrite`, `CsvColumns` | the incremental CSV reader, the CSV writer and the header |
| `Bisect` | committing a batch by splitting it around what fails |
| `ImportTable`, `ImportBatch`, `ImportWorker`, `ImportMeaning` | the bulk import, and the row-by-row import it equals |
| `Money` | refund and payout arithmetic, in cents |
| `Ledger`, `LedgerOutcomes`, `LedgerPayouts`, `LedgerClawbacks` | conversions, commissions, adjustments and payouts: what each transaction comes to, and what every run of them keeps |
| `LedgerDecisions` | decisions about payouts that overlap, and payouts of one affiliate that do |
| `ClickQueue`, `ClickQueueOutcomes`, `ClickQueueRuns` | the click queue with its dead letters: what one drain or replay comes to, and many workers and replays at once |
| `CircuitBreaker`, `Webhook`, `WebhookRuns`, `WebhookInterleaving` | webhook delivery behind a breaker, one endpoint after another and several at once |
| `WebhookOutcomes` | what becomes of a delivery in one turn, by an event or a replay, and for good |
| `WebhookTimes` | what a cooldown and a lost probe come to when requests take time and passes are killed |
| `Concurrency` | mapping with a bounded number of runners |
| `Lease` | the scheduler lease, with time |
| `RefreshTokens`, `RefreshRuns` | refresh-token rotation with reuse detection |
| `Pagination` | paging by cursor over a table that changes |
| `TokenBucket` | the rate limiter's bucket, pure and in Redis |
| `Prelude` | options, results, filters and folds |

`dafny verify dfyconfig.toml` checks all of it.

## Where the code falls short of what it says

Some promises hold only under a condition. The code is modelled as it is, and the condition is exact.

- A payout's amount is what is attached to it if and only if it never failed or was cancelled
  (`LedgerPayouts.AmountIsExplained`). Retrying a failed payout settles it for its full amount with
  no commission attached (`LedgerClawbacks.RetryPaysForNothing`).
- An administrator's fraud block keeps the clawback equation if and only if no commission of the
  conversion is payable, in a payout, or paid and not yet taken back (`LedgerClawbacks.BlockBalances`).
- `transition` checks a payout's status before its transaction and does not look again. A run with
  decisions that overlap stays sound if and only if none of them releases or restarts a payout in which
  something has been paid (`LedgerDecisions.SoundIffNoneReopensPaid`), and its trail of events stays
  legal if and only if none is overtaken (`LedgerDecisions.TrailIffNeverOvertaken`). What is proved
  of undivided transitions holds of a run in which none is (`LedgerDecisions.UnovertakenIsSerial`). Two
  overlapping decisions can leave a paid commission in a failed payout, or a settled payout whose commission is
  payable again (`LedgerDecisions.OverlappingDecisionsClash`).
- PAYOUT_IN_FLIGHT keeps an affiliate to one open payout until a failed one is retried while another is
  open, and only until then (`LedgerDecisions.OneOpenIffNoneCrowds`).
- The comment at apps/api/src/services/auth.service.ts:249-252 says reuse detection needs no clock.
  It compares clock readings (`RefreshRuns.ReuseIsDetected`), so it is right for a whole family if and
  only if the newest rotation has the latest reading (`RefreshRuns.RightIffNewestIsLatest`). Two
  rotations within one reading hide a reuse (`RefreshRuns.SameReadingHidesReuse`); readings that go
  back, as those of two instances may, hide one and raise a false alarm
  (`RefreshRuns.BackwardsReadingsMislead`).
- A revoked family can have a live token again if and only if one of its refreshes was between its
  claim and its issue when it was revoked (`RefreshRuns.RevokedForGood`).
- A cooldown is counted from the reading a pass takes when it begins (apps/api/src/services/webhook.service.ts:281),
  not from the answer that opens the breaker: after an answer at A in a pass that read T what is
  guaranteed is a cooldown less A - T, a whole one only if A is not after T
  (`WebhookTimes.CooldownCountsFromTheReading`). Five timeouts of five seconds leave 35 seconds of it,
  nine slow successes before them nothing (`WebhookTimes.SlowPassShortensTheCooldown`).
- The comment at packages/analytics/src/circuit-breaker.ts:83-88 says a lost probe costs one more
  cooldown. `drainEndpoint` writes the breaker back only when its state changes, so a probe lost while
  the breaker was already half-open is not stamped and the next leaves at once
  (`WebhookTimes.LostProbe`, `WebhookTimes.SecondLostProbeCostsNothing`).
- The comment at apps/api/src/lib/lease.ts:96-97 says two failed renewals leave a window. The third
  renewal comes before the lease runs out only for a time-to-live over three seconds that is not a
  multiple of three milliseconds (`Lease.FailuresSurvived`).
- An empty first chunk uses up the CSV reader's only look for a byte-order mark
  (`CsvParse.EmptyFirstChunkKeepsTheMark`), and a written file reads back exactly if and only if it has
  no blank row and does not begin with such a mark (`CsvWrite.RoundTrip`).
- A refused caller's retry-after is right if and only if its clock was not behind the bucket's
  (`TokenBucket.RetryAfterSuffices`).

## Model

| member | source | states |
|---|---|---|
| CsvParse.CsvStreamParser.constructor | packages/analytics/src/csv-parse.ts:44-61 | a new parser is at the start of line 1 of a file, outside quotes, with nothing read |
| CsvParse.CsvStreamParser.Push | packages/analytics/src/csv-parse.ts:64-129 | a pushed chunk moves the parser, and gives out the records, as its characters do one by one, a mark at the very start of the file apart |
| CsvParse.CsvStreamParser.End | packages/analytics/src/csv-parse.ts:135-152 | the last unfinished record comes out, or the line of the quoted field that never closed |
| CsvParse.ChunkingIsInvisible | packages/analytics/src/csv-parse.ts:64-169 | whatever the cuts, the records and the end result or error are those of the whole text; only an empty first chunk changes the treatment of a byte-order mark |
| CsvParse.SameTextSameReading | packages/analytics/src/csv-parse.ts:64-169 | two cuts of one text whose first chunks are not empty read the same |
| CsvParse.EmptyFirstChunkKeepsTheMark | packages/analytics/src/csv-parse.ts:64-72 | a text whose reading an empty first chunk changes |
| CsvParse.RecordsTileTheText | packages/analytics/src/csv-parse.ts:74-169 | the records are consecutive stretches of the text with only line breaks between them, each on the line of its first character and each reading the same as a file of its own |
| CsvParse.EndsInsideQuotes | packages/analytics/src/csv-parse.ts:135-152 | a file ends in an error exactly when it stops inside quotes |
| CsvParse.UnterminatedLine | packages/analytics/src/csv-parse.ts:140-146 | the line reported is that of the first character of the record the file stops in |
| CsvWrite.StreamCsv | apps/api/src/lib/csv.ts:55-70 | one chunk for the header and one for each page that has rows, none of them empty, and together they are the whole table's text |
| CsvWrite.RenderingsReadBack | packages/analytics/src/csv-parse.ts:64-169 | any table in the form of section 2 of RFC 4180, with each cell quoted or not and every line ended by CRLF or LF, reads back as its values in any chunks |
| CsvWrite.LastLineMayBeOpen | packages/analytics/src/csv-parse.ts:131-152 | so does one whose last line has no line end, its last row coming out at the end of the file |
| CsvWrite.ShownIsNeutralised | apps/api/src/lib/csv.ts:21-41 | of a written table exactly the rows that are not blank come back, in order and formula-neutralised, which is all of them only if none is blank |
| CsvWrite.FirstCharacter | apps/api/src/lib/csv.ts:21-41 | a written file begins with a byte-order mark exactly when its first cell does and needs no quotes |
| CsvWrite.RoundTrip | apps/api/src/lib/csv.ts:21-41 | writing and then reading in any chunks returns exactly the neutralised values, if and only if no row is blank and the file does not begin with a mark; without a mark only blank rows are lost |
| CsvWrite.NeutralisedIsHarmless | apps/api/src/lib/csv.ts:18-30 | a written value never starts with a formula character: one that would gets an apostrophe in front, any other is kept as it is, null is empty |
| CsvWrite.NothingReadsAsAFormula | apps/api/src/lib/csv.ts:18-41 | no cell of a written file, read back in any chunks, starts with a formula character |
| CsvColumns.ReadHeader | packages/analytics/src/csv-parse.ts:187-196 | each trimmed, lower-cased name gets the column it is first found in |
| CsvColumns.FirstColumnWins | packages/analytics/src/csv-parse.ts:187-196 | every named column is found, and of two with one name the first |
| CsvColumns.MissingAreUnnamed | packages/analytics/src/csv-parse.ts:198-204 | the missing columns are exactly the required ones that no header cell names, in the order asked for |
| CsvColumns.SelectColumns | packages/analytics/src/csv-parse.ts:215-230 | nothing for a record of another width, otherwise a cell for each wanted column that the header has |
| CsvColumns.SelectedByName | packages/analytics/src/csv-parse.ts:215-230 | a selected cell is the trimmed value under the first header of that name, and a column that the header lacks has no cell |
| Bisect.BisectResult.Attempt | packages/analytics/src/bisect.ts:57-79 | an attempt adds to the result and the database exactly what the recursive splitting of the batch does |
| Bisect.BisectCommit | packages/analytics/src/bisect.ts:50-83 | nothing for no items, otherwise the outcome of one attempt at all of them |
| Bisect.Partition | packages/analytics/src/bisect.ts:50-83 | for any commit, succeeded and failed split the items between them, each in order |
| Bisect.WrittenInSlices | packages/analytics/src/bisect.ts:43-49 | the succeeded items were written once each, in slices that committed one after another, and the attempts are twice those slices and the failed items, less one |
| Bisect.NoItemsNoAttempts | packages/analytics/src/bisect.ts:50-83 | nothing is attempted for no items, and only then |
| Bisect.FailuresAreSingle | packages/analytics/src/bisect.ts:64-70 | a failed item was refused on its own, with the error recorded, in a state that slices making up a first part of what succeeded had led to |
| Bisect.PoisonIsIsolated | packages/analytics/src/bisect.ts:50-83 | when a slice fails exactly because it holds a poison item, exactly the poison items fail |
| Bisect.AttemptsAreFew | packages/analytics/src/bisect.ts:50-83 | with k of n items poisoned there are at most 1 + 2k⌈log2 n⌉ attempts |
| ImportTable.FirstOccurrenceWins | apps/api/src/repositories/import-job.repository.ts:103-104 | a row is inserted exactly when it resolves, its order is not in the table and no earlier row stands for the same order |
| ImportTable.ResolvedOutcome | apps/api/src/workers/import.worker.ts:226-277 | a record is an error of its width, its cells, its tracking code or the database, in this order, with its line and at most 500 characters; otherwise the row has its campaign, order, value and details, its link's id and affiliate and the commission priced for them |
| ImportTable.ImportedAreAdded | apps/api/src/repositories/import-job.repository.ts:103-104 | what the table gains is the rows of the imported records, in order |
| ImportTable.ImportAgain | apps/api/src/workers/import.worker.ts:306-310 | row by row, a second import inserts nothing, fails the same rows alike and skips the others |
| ImportBatch.CommitInserts | apps/api/src/workers/import.worker.ts:204-314 | a bisected batch inserts its rows the database accepts, in order, skipping duplicates |
| ImportBatch.CommitFails | apps/api/src/workers/import.worker.ts:204-314 | the rows it rejects are reported one by one with the database's reason |
| ImportBatch.RowByRowInsertsLines | apps/api/src/workers/import.worker.ts:204-314 | taking records one at a time inserts what inserting all their lines at once does |
| ImportBatch.RowByRowTallies | apps/api/src/workers/import.worker.ts:306-310 | row by row, imported is the table's growth and imported plus skipped are the acceptable rows |
| ImportBatch.RowByRowErrors | apps/api/src/workers/import.worker.ts:335-353 | row by row, the errors are those of parsing and those of accepting, each once |
| ImportWorker.ImportRun.RecordError | apps/api/src/workers/import.worker.ts:187-194 | a failure is always counted and kept only under the cap |
| ImportWorker.ImportRun.PersistErrors | apps/api/src/workers/import.worker.ts:196-202 | waiting errors are stored and no longer wait |
| ImportWorker.ImportRun.Flush | apps/api/src/workers/import.worker.ts:204-314 | the batch is resolved, bisected into the table and tallied, and its failures recorded |
| ImportWorker.ImportRun.Handle | apps/api/src/workers/import.worker.ts:316-364 | the first record is the header and may end the import; any other goes to the batch or the errors, with a flush and progress when due |
| ImportWorker.ImportRun.ImportFile | apps/api/src/workers/import.worker.ts:164-389 | the state and the exception after the whole file, whatever its chunks |
| ImportWorker.ImportRun.ProcessClaimedJob | apps/api/src/workers/import.worker.ts:115-162 | a job is completed, or stopped by the error its import threw, with the counts reached saved either way |
| ImportMeaning.RowsAreAccountedFor | apps/api/src/workers/import.worker.ts:316-364 | at every record boundary total = imported + skipped + failed + waiting, and stored plus waiting errors are the failures up to the cap |
| ImportMeaning.ImportIsRowByRow | apps/api/src/workers/import.worker.ts:164-389 | a completed import leaves the table and counts of the row-by-row import, and a report of its errors in the order they are met: a record that does not parse at once, the lines of a batch when it is full; cut at the cap |
| ImportMeaning.HowAnImportEnds | apps/api/src/workers/import.worker.ts:316-389 | an import is refused exactly when the first record lacks required columns, naming them; otherwise it stops at a quoted field that never closes, with its line, or for want of any record; else it completes |
| ImportMeaning.ProgressIsRecent | apps/api/src/workers/import.worker.ts:356-364 | while a file is read the counts saved with the job are less than 5000 rows old |
| ImportMeaning.FlushSaves | apps/api/src/workers/import.worker.ts:306-314 | after a flush the counts saved are those reached and every error has been stored |
| ImportMeaning.FailedImportIsAPrefix | apps/api/src/workers/import.worker.ts:128-144 | a failed import has imported, row by row, the records up to its last full batch, or none if the header is refused, and its counts are theirs plus the rows and parse errors read beyond |
| ImportMeaning.LastFlush | apps/api/src/workers/import.worker.ts:345-357 | that batch ends where the valid lines make a multiple of the batch size and fewer than a batch follow, which wait |
| ImportMeaning.ChunkedImportIsRowByRow | apps/api/src/workers/import.worker.ts:366-389 | so it is for every chunking of the file whose first chunk is not empty |
| ImportMeaning.SecondImport | apps/api/src/workers/import.worker.ts:306-310 | importing a file again completes, leaves the table alone and skips what the first run imported or skipped |
| Money.RefundSplits | packages/analytics/src/refund-math.ts:27-60 | the refund comes off the value; the commission kept is the remaining share to the nearest cent, the rest is taken back, both between nothing and all of it; a full refund keeps nothing |
| Money.RefundIsBounded | packages/analytics/src/refund-math.ts:27-60 | only a positive amount up to the order's value can be refunded |
| Money.RefundTakesOff | packages/analytics/src/refund-math.ts:27-60 | one refund of an order takes the amount off its value and moves the rest of the commission to its clawbacks |
| Money.RefundsConserve | packages/analytics/src/refund-math.ts:27-60 | over any k refunds kept plus clawbacks stay the original to the cent, kept never rises or goes negative and stays within k/2 cents of the exact share |
| Money.RefundsOfAnOrder | packages/analytics/src/refund-math.ts:27-60 | the same from a fresh order, and refunding all that is left takes all that is left |
| Money.BreakdownAddsUp | packages/analytics/src/payout-math.ts:31-52 | the fee is the percentage of the gross to the nearest cent, halves up; fee and net add up to the gross and neither is negative for a fee up to 100% |
| Ledger.LedgerDb.ReportSale | apps/api/src/services/conversion.service.ts:53-250 | a pending conversion and its locked commission appear, and nothing else changes |
| Ledger.LedgerDb.ReviewConversion | apps/api/src/services/conversion.service.ts:252-304 | only a pending conversion is reviewed: approval releases its expired locks, rejection refuses its commission |
| Ledger.LedgerDb.FindFirstCommission | apps/api/src/services/conversion.service.ts:404-405 | the commission found belongs to the conversion, or there is none |
| Ledger.LedgerDb.ReverseConversion | apps/api/src/services/conversion.service.ts:351-458 | a refund of an approved sale reduces or rejects it, and becomes an adjustment if its commission is paid, with every refusal in the source's order |
| Ledger.LedgerDb.DecideBlocked | apps/api/src/routes/admin.routes.ts:104-120 | a fraud block rejects the conversion in any state and claws back only a locked commission |
| Ledger.LedgerDb.PromoteLocks | apps/api/src/workers/lock-expiry.worker.ts:32-61 | exactly the picked expired locks of approved conversions become payable, and their number is returned |
| Ledger.LedgerDb.RequestPayoutFor | apps/api/src/services/payout.service.ts:103-241 | a repeated key shows the earlier payout, an open one blocks, and otherwise the payable commissions and unsettled adjustments of the affiliate are totalled and all attached |
| Ledger.LedgerDb.DecideTransition | apps/api/src/services/payout.service.ts:251-267 | a move is decided on the status read: a missing payout, a move outside the table and a failure without a reason are refused |
| Ledger.LedgerDb.CommitDecision | apps/api/src/services/payout.service.ts:269-303 | the transaction moves the payout whatever its status has become: settling pays the attached commissions, releasing gives them back, and it is logged with the status read |
| Ledger.LedgerDb.TransitionPayout | apps/api/src/services/payout.service.ts:246-303 | uninterrupted, only transitions of the table happen |
| LedgerOutcomes.SaleIsPending | apps/api/src/services/conversion.service.ts:53-250 | a reported sale is one pending conversion and its locked commission, for the same affiliate and amount, and nothing else |
| LedgerOutcomes.ReviewOutcome | apps/api/src/services/conversion.service.ts:252-304 | a pending conversion is approved at that time or rejected, once; its commissions are payable if approved with their lock run out, refused if rejected, and nothing else changes |
| LedgerOutcomes.RefundIsTurnedAway | apps/api/src/services/conversion.service.ts:351-418 | what a refund is turned away for, in this order, and when it goes through |
| LedgerOutcomes.RefundOutcome | apps/api/src/services/conversion.service.ts:419-458 | the sale loses the amount or is rejected; an unpaid commission is reduced to the remaining share or clawed back, a paid one stays and the affiliate of the sale gets an adjustment for the rest |
| LedgerOutcomes.BlockOutcome | apps/api/src/routes/admin.routes.ts:104-120 | the sale is rejected, exactly its locked commissions are clawed back |
| LedgerOutcomes.PromotionOutcome | apps/api/src/workers/lock-expiry.worker.ts:32-61 | a commission is payable afterwards if it was picked, locked, run out and of an approved sale, and otherwise as it was |
| LedgerOutcomes.RequestIsAnswered | apps/api/src/services/payout.service.ts:115-167 | a repeated key is answered with an earlier payout of it; an open payout, nothing payable or under fifty dollars available turn the request away, in this order; otherwise it is granted |
| LedgerOutcomes.GrantOutcome | apps/api/src/services/payout.service.ts:175-233 | one new requested payout for all that was available, less the fee at the rate asked for; exactly the affiliate's payable commissions and unsettled adjustments are in it, and nothing is available after |
| LedgerOutcomes.DecisionOutcome | packages/analytics/src/payout-lifecycle.ts:19-27 | the table of moves, and what a decision is turned away for: no such payout, no such move, a failure without a reason |
| LedgerOutcomes.CommitOutcome | apps/api/src/services/payout.service.ts:269-294 | which commissions a committed move pays or gives back, and that nothing else changes but the status and one event |
| LedgerOutcomes.RefundLowersAvailable | apps/api/src/services/conversion.service.ts:419-458 | a refund lowers what its affiliate can ask for by exactly the commission taken back if it was payable or paid, by nothing if locked, and nobody else's |
| LedgerOutcomes.ClawbackIsRecovered | apps/api/src/services/payout.service.ts:151-220 | an unsettled adjustment is of its sale's affiliate, and the next granted request of that affiliate settles it |
| LedgerPayouts.EveryRunIsSound | apps/api/src/services/payout.service.ts:103-303 | in every ledger reached by undivided transactions and transitions an included commission is under an open payout and a paid one under a settled one, whatever got that far was approved with its lock run out, and every adjustment is of its conversion's affiliate and settled only in a payout of theirs |
| LedgerPayouts.ClaimIsExplained | apps/api/src/services/payout.service.ts:137-220 | what a request attaches sums to the amount it was granted for |
| LedgerPayouts.AmountIsExplained | apps/api/src/services/payout.service.ts:269-294 | amount = fee + net always, and = attached commissions + settled adjustments if and only if the payout was never released |
| LedgerPayouts.SettledOnce | apps/api/src/services/payout.service.ts:213-220 | an adjustment is never changed or lost, and once settled stays settled in the same payout |
| LedgerPayouts.CommitIsSound | apps/api/src/services/payout.service.ts:269-303 | committing a decision keeps the ledger sound if and only if it settles the payout or nothing has been paid in it, as when the status is still the one read |
| LedgerDecisions.SoundIffNoneReopensPaid | apps/api/src/services/payout.service.ts:246-303 | a run with overlapping decisions is sound all along if and only if every commit is such |
| LedgerDecisions.UnovertakenIsSerial | apps/api/src/services/payout.service.ts:246-303 | if every commit finds the status its decision read, the run comes to one of undivided transitions |
| LedgerDecisions.TrailIffNeverOvertaken | apps/api/src/services/payout.service.ts:284-294 | the events of every payout are a path through the transition table to its status, all along, if and only if every commit finds the status its decision read |
| LedgerDecisions.OverlappingDecisionsClash | apps/api/src/services/payout.service.ts:251-294 | a run to a failed payout with a paid commission, and one to a settled payout whose commission is payable again |
| LedgerDecisions.OneOpenIffNoneCrowds | apps/api/src/services/payout.service.ts:130-141 | no affiliate ever has two open payouts if and only if no failed one is retried while another is open |
| LedgerClawbacks.BlockBalances | apps/api/src/routes/admin.routes.ts:104-120 | a fraud block keeps the clawback equation exactly when it is not late |
| LedgerClawbacks.ClawbacksBalance | apps/api/src/services/conversion.service.ts:419-458 | over every run whose blocks come in time, commission plus adjustments is the conversion's commission while it stands, and nothing once a paid one is wholly refunded |
| LedgerClawbacks.MoneyIsConserved | apps/api/src/services/payout.service.ts:103-303 | payouts that stand + waiting commissions + unsettled clawbacks + clawbacks lost in released payouts = what the conversions earn |
| LedgerClawbacks.RetryPaysForNothing | packages/analytics/src/payout-lifecycle.ts:19-27 | a failed payout that is retried is settled in full with nothing attached |
| ClickQueue.CountLinks | apps/api/src/workers/click-event.worker.ts:321-325 | the map holds exactly the links with counted clicks, with their numbers |
| ClickQueue.FlushBatch | apps/api/src/workers/click-event.worker.ts:315-347 | all rows and counter increments of a slice are written, or none and why |
| ClickQueueOutcomes.ClicksAreCounted | apps/api/src/workers/click-event.worker.ts:321-340 | a counter moves by the number of places that hold a counted click of its link |
| ClickQueueOutcomes.TransactionOutcome | apps/api/src/workers/click-event.worker.ts:315-347 | a slice is written whole, every counter moved by its clicks, unless the database refuses it or a counted click has no counter |
| ClickQueue.ClickEvents.Bury | apps/api/src/workers/click-event.worker.ts:211-232 | a failure is counted in the envelope, which keeps payload and first failure; the third one parks it |
| ClickQueue.ClickEvents.DrainClickEvents | apps/api/src/workers/click-event.worker.ts:96-190 | lists, table, counters and tallies after one drain, for any verdicts of the database |
| ClickQueue.ClickEvents.ReplayDeadLetters | apps/api/src/workers/click-event.worker.ts:358-395 | dead letters go back to the queue in their envelopes, exhausted ones are parked, and both are counted |
| ClickQueueOutcomes.BuriedOutcome | apps/api/src/workers/click-event.worker.ts:211-232 | one failure more, its reason and time, the click and its first failure kept; dead letter or, the third time, parked |
| ClickQueueOutcomes.DrainOutcome | apps/api/src/workers/click-event.worker.ts:96-190 | a drain takes the oldest strings, at most a hundred; its valid clicks are written in order with each counter moved by theirs, the failed and the invalid ones are dead letters, and it reports how many of each |
| ClickQueueOutcomes.CalmDrainWritesAll | apps/api/src/workers/click-event.worker.ts:150-190 | if the database refuses nothing and every counted link queued has a counter, every valid click taken is written and only invalid ones are buried |
| ClickQueueOutcomes.ReplayOutcome | apps/api/src/workers/click-event.worker.ts:358-395 | a replay takes the oldest dead letters up to its limit, parks those that failed three times and queues the others again, oldest first |
| ClickQueueOutcomes.OnlyValidAreTabled | apps/api/src/workers/click-event.worker.ts:122-145 | under any interleaving a click the schema refuses is never written |
| ClickQueueRuns.EveryClickIsSomewhere | apps/api/src/workers/click-event.worker.ts:96-395 | under any interleaving every click is in exactly one place, its envelope tells the drains that failed it, and each counter is its counted rows |
| ClickQueueRuns.WhereAClickIs | apps/api/src/workers/click-event.worker.ts:39-42 | a click is in one place, once; it failed at most three times, and is parked exactly when it failed three times |
| ClickQueueRuns.DrainIsARun | apps/api/src/workers/click-event.worker.ts:96-190 | an uninterrupted drain is one of the interleavings |
| ClickQueueRuns.ReplayIsARun | apps/api/src/workers/click-event.worker.ts:358-395 | so is an uninterrupted replay |
| CircuitBreaker.AlwaysConsistent | packages/analytics/src/circuit-breaker.ts:67-130 | in every reachable state closed means under five failures and no stamp, otherwise at least five and a stamp |
| CircuitBreaker.ClosedUntilFiveInARow | packages/analytics/src/circuit-breaker.ts:103-130 | over any history the breaker is closed exactly when fewer than five requests in a row have failed |
| CircuitBreaker.ProbesAreSpaced | packages/analytics/src/circuit-breaker.ts:67-95 | after a breaker that is not closed admits a request it admits another only a cooldown later, however often it is asked |
| Webhook.WebhookDb.FailPendingForEndpoint | apps/api/src/repositories/webhook.repository.ts:79-90 | exactly the pending deliveries of the endpoint give up |
| Webhook.WebhookDb.AttemptDelivery | apps/api/src/services/webhook.service.ts:170-299 | an answer is recorded on delivery, endpoint and breaker: success, 410, last or earlier failure, or a secret that does not open |
| Webhook.WebhookDb.TakeTurn | apps/api/src/services/webhook.service.ts:319-353 | one turn skips, parks or attempts, writing a changed breaker first, and is counted once |
| Webhook.WebhookDb.DrainEndpoint | apps/api/src/services/webhook.service.ts:312-356 | rows and tallies after an endpoint's deliveries have been worked through with the breaker carried along |
| Webhook.WebhookDb.ByEndpoint | apps/api/src/services/webhook.service.ts:135-144 | the groups are the endpoints in order of first appearance, each with its deliveries in order |
| Webhook.WebhookDb.DeliverDue | apps/api/src/services/webhook.service.ts:454-472 | rows and summed tallies after every group of the batch |
| Webhook.WebhookDb.Emit | apps/api/src/services/webhook.service.ts:61-89 | one pending delivery for each subscribed endpoint that is active |
| Webhook.WebhookDb.ReplayDelivery | apps/api/src/services/webhook.service.ts:420-445 | only a delivery that gave up, of an active endpoint, is queued again, with a fresh budget |
| WebhookOutcomes.AnswerDecides | apps/api/src/services/webhook.service.ts:217-299 | 200 to 299 delivers, 410 disables the endpoint and ends its pending deliveries, anything else spends an attempt and is retried after the delay or, the sixth time, given up; breaker, tallies and code follow, other rows do not change |
| WebhookOutcomes.ParkedUntilAdmitted | apps/api/src/services/webhook.service.ts:326-336 | a delivery that is not let through is due again at exactly the first reading at which it would be, and spends no attempt |
| WebhookOutcomes.SecretStaysShut | apps/api/src/services/webhook.service.ts:179-193 | a secret that does not open ends the delivery without a request or a failure of the breaker |
| WebhookOutcomes.EventIsQueued | apps/api/src/services/webhook.service.ts:61-89 | an event leaves one fresh delivery, due at once, for each active subscriber, in order |
| WebhookOutcomes.ReplayOutcome | apps/api/src/services/webhook.service.ts:420-445 | only a delivery that gave up, of an endpoint that has not answered 410, is queued again, with six attempts and at once |
| WebhookOutcomes.DeliveredForGood | apps/api/src/services/webhook.service.ts:223-233 | whatever happens after, a delivered delivery stays so and is never sent or queued again |
| WebhookRuns.PassKeeps | apps/api/src/services/webhook.service.ts:454-472 | delivered + failed + skipped = deliveries claimed, and the invariant is kept |
| WebhookRuns.DrainIsLocal | apps/api/src/services/webhook.service.ts:301-311 | draining one endpoint touches no other endpoint, its deliveries or the requests made to it, so drains may run side by side |
| WebhookRuns.WebhookGuarantees | apps/api/src/services/webhook.service.ts:170-356 | over every run, with passes killed or not: at most six answers between replays, pending only with budget left and an active endpoint, no pass that read the clock less than a cooldown after the reading of one that opened the breaker makes a request, a request keeps away from that opening answer by a cooldown less the time the answer took, a delivery is delivered exactly when the last thing that happened to it is an answer from 200 to 299, and an endpoint is active until it answers 410 and gets no request after |
| WebhookRuns.DrainIsRestrained | apps/api/src/services/webhook.service.ts:312-356 | in one drain at most five requests in a row fail, and from a breaker that is not closed at most one leaves before a success |
| WebhookTimes.CooldownCountsFromTheReading | apps/api/src/services/webhook.service.ts:281 | in every run an open breaker admits exactly from a cooldown after the reading of the pass that opened it; a gap after the opening answer is guaranteed if and only if it is at most a cooldown less the time from that reading to the answer |
| WebhookTimes.SlowPassShortensTheCooldown | apps/api/src/services/webhook.service.ts:198-281 | a run in which a pass of n slow successes and five timeouts opens the breaker 4n + 25 seconds after its reading, so that the next request is let out within 35 seconds, and at once from nine successes on |
| WebhookTimes.LostProbe | apps/api/src/services/webhook.service.ts:338-343 | in every run, a probe whose pass is killed holds off the next for a cooldown exactly when the breaker was open, and otherwise not at all |
| WebhookTimes.SecondLostProbeCostsNothing | packages/analytics/src/circuit-breaker.ts:83-88 | a run in which a second probe is lost and a third leaves at the same reading |
| WebhookInterleaving.InterleavedPassIsThePass | apps/api/src/services/webhook.service.ts:454-472 | however the turns of a pass's drains interleave, rows, tallies and the requests made to each endpoint end up as one endpoint after another would leave them |
| Concurrency.Shared.Turn | apps/api/src/lib/concurrency.ts:26-31 | a runner's turn pulls the next index, stores its worker's result in place or returns |
| Concurrency.InterleavingIsInvisible | apps/api/src/lib/concurrency.ts:13-35 | never more at work than the limit, each index called once, and the results of a plain map in the items' order |
| Concurrency.TheLimitIsReached | apps/api/src/lib/concurrency.ts:13-35 | as many items as the limit allows, and there are, can be at work at once |
| Concurrency.TurnsRunOut | apps/api/src/lib/concurrency.ts:25-33 | every turn of a runner that has not returned brings the end nearer |
| Lease.Scheduler.TryAcquire | apps/api/src/lib/lease.ts:86-92 | the lease is taken only when none is shown, with its expiry, and otherwise the body does not run |
| Lease.Scheduler.RenewOnce | apps/api/src/lib/lease.ts:43-49 | the expiry moves only for the holder; a running body that holds nothing is told to abort |
| Lease.Scheduler.ReleaseOnce | apps/api/src/lib/lease.ts:34-40 | the key goes only if it is the caller's |
| Lease.OverlapMeansOverdue | apps/api/src/lib/lease.ts:81-132 | whenever two bodies run at once one has gone a whole time-to-live without a renewal, and only such a body is told to abort |
| Lease.PunctualBodiesNeverOverlap | apps/api/src/lib/lease.ts:81-132 | with renewals always less than a time-to-live apart no two bodies overlap |
| Lease.ATimeToLiveIsTooLong | apps/api/src/lib/lease.ts:86-92 | a gap of exactly a time-to-live lets a second body in |
| Lease.OthersAreLeftAlone | apps/api/src/lib/lease.ts:24-49 | with no timing assumption, nobody's acquire, renew or release touches a lease held under another id |
| Lease.GrantedWhenFree | apps/api/src/lib/lease.ts:86-92 | an instance that asks is granted the lease for a time-to-live exactly when none is shown |
| Lease.RenewalOutcome | apps/api/src/lib/lease.ts:43-49 | a renewal puts the expiry a time-to-live ahead if the lease is still held, and otherwise the body is told to abort |
| Lease.ReleaseFreesTheLease | apps/api/src/lib/lease.ts:34-40 | the holder's release leaves no key, and whoever then asks is granted the lease at once |
| Lease.FailedReleaseExpires | apps/api/src/lib/lease.ts:111-132 | a release that fails leaves the lease to expire by itself, and nobody waits longer than that |
| Lease.LeaseStands | apps/api/src/lib/lease.ts:14-33 | until it expires or its holder releases it, a lease stands through anything others do |
| Lease.FailuresSurvived | apps/api/src/lib/lease.ts:96-99 | which times-to-live let a punctual timer survive one and two failed renewals in a row |
| RefreshTokens.RefreshTokenTable.ClaimForRotation | apps/api/src/repositories/refresh-token.repository.ts:26-30 | the claim succeeds exactly on a token neither rotated nor revoked |
| RefreshTokens.RefreshTokenTable.CountAfter | apps/api/src/repositories/refresh-token.repository.ts:40-41 | the rotations of the family strictly after a reading |
| RefreshTokens.RefreshTokenTable.RevokeFamily | apps/api/src/repositories/refresh-token.repository.ts:43-47 | every token of the family is revoked, earlier revocations keep their time |
| RefreshTokens.RefreshTokenTable.Refresh | apps/api/src/services/auth.service.ts:217-300 | rows and outcome of a refresh nobody interrupts, in all seven ways it can end: nobody can take the token between its check and its claim |
| RefreshRuns.RefreshOutcome | apps/api/src/services/auth.service.ts:217-300 | which of the seven ways a refresh ends in, and exactly what it writes: a rotation, a successor of the same family and user, or the revocation of the family |
| RefreshRuns.RotationsAreCounted | apps/api/src/repositories/refresh-token.repository.ts:40-41 | the count is the number of the family's tokens rotated strictly after the reading |
| RefreshRuns.LoginOutcome | apps/api/src/services/auth.service.ts:168-205 | a log-in begins a family of its own with one live token of the user |
| RefreshRuns.FamilyIsRevoked | apps/api/src/repositories/refresh-token.repository.ts:43-47 | every token of the family is revoked, earlier revocations keep their time, no other token changes |
| RefreshRuns.UserIsRevoked | apps/api/src/repositories/refresh-token.repository.ts:49-53 | the same of every token of a user |
| RefreshRuns.RevocationIsFinal | apps/api/src/services/auth.service.ts:263-318 | in every run, once reuse is detected or the session or the user logs out every token of the family is refused, and one is live again if and only if one of its refreshes was between claim and issue |
| RefreshTokens.RefreshIsARun | apps/api/src/services/auth.service.ts:217-300 | such a refresh is one of the interleavings |
| RefreshRuns.OneLiveToken | apps/api/src/services/auth.service.ts:283-300 | under any interleaving and any clock a family never has two unrotated tokens |
| RefreshRuns.ClaimedOnce | apps/api/src/repositories/refresh-token.repository.ts:16-30 | a rotation or a revocation is never undone or repeated |
| RefreshRuns.RevokedForGood | apps/api/src/services/auth.service.ts:263-300 | a revoked family can have a live token again exactly when one of its refreshes is between claim and issue |
| RefreshRuns.ReuseIsDetected | apps/api/src/services/auth.service.ts:231-279 | with any clock, presenting a rotated token revokes every token of the family exactly when some token of it was rotated at a later reading, and otherwise changes nothing; and exactly when that is a false alarm or hides a reuse |
| RefreshRuns.RightIffNewestIsLatest | apps/api/src/services/auth.service.ts:249-253 | the test tells reuse from a race for every rotated token of a family if and only if the newest of them has the latest reading |
| RefreshRuns.ReuseIsDetectedInOrder | apps/api/src/services/auth.service.ts:231-279 | if readings never go back reuse is seen exactly at another reading, and if they always advance, always |
| RefreshRuns.BackwardsReadingsMislead | apps/api/src/services/auth.service.ts:249-253 | a second rotation at an earlier reading: presenting the newest rotated token revokes the family, presenting the older one does nothing |
| RefreshRuns.SameReadingHidesReuse | apps/api/src/services/auth.service.ts:249-253 | two rotations within one reading hide the reuse of the first token |
| Pagination.PageIsRight | packages/shared/src/pagination.ts:107-121 | a page is the first rows found after the cursor; it has more, and a next cursor, exactly when there are more |
| Pagination.BadCursorIsRefused | packages/shared/src/pagination.ts:78-99 | exactly a cursor that lacks a field is refused |
| Pagination.OneRowMore | apps/api/src/repositories/conversion.repository.ts:36-71 | the query reads the rows of the page and at most one more |
| Pagination.WalkDescends | apps/api/src/services/conversion.service.ts:526-560 | however the table changes between pages, the walk goes strictly down and repeats nothing |
| Pagination.SteadyRowsAppear | apps/api/src/repositories/conversion.repository.ts:36-71 | a row present and matching throughout a finished walk is on one of its pages |
| Pagination.EverySteadyRowOnce | apps/api/src/repositories/conversion.repository.ts:36-71 | and on exactly one, once |
| Pagination.UnchangedTableIsListed | packages/shared/src/pagination.ts:101-121 | on an unchanged table the walk ends and its pages are the whole sorted list |
| Pagination.OffsetPagesRepeat | apps/api/src/services/conversion.service.ts:526-533 | by offset, one newer row between two pages shows a row again |
| TokenBucket.EpsilonIsHarmless | packages/analytics/src/token-bucket.ts:56-68 | taking a billionth off before rounding up changes no answer if and only if the rate is under a billion a minute |
| TokenBucket.SpentIsCovered | packages/analytics/src/token-bucket.ts:93-140 | what a run of calls spends is covered by what was in the bucket and what flowed in while the latest reading advanced |
| TokenBucket.AdmissionsAreBounded | packages/analytics/src/token-bucket.ts:93-140 | for any clock readings a stretch of calls lets through at most the burst and the rate over the advance of the latest reading |
| TokenBucket.AdmissionOutcome | packages/analytics/src/token-bucket.ts:93-140 | a call is let through exactly when the bucket, filled up to the call's reading but never beyond its capacity, covers it; then that much is taken and there is nothing to wait for |
| TokenBucket.RemainingIsSpendable | packages/analytics/src/token-bucket.ts:134-136 | `remaining` is exactly how many more calls get through at once |
| TokenBucket.RetryAfterIsExact | packages/analytics/src/token-bucket.ts:118-140 | a later call gets through if and only if it waits the retry-after and the caller's lag |
| TokenBucket.RetryAfterSuffices | packages/analytics/src/token-bucket.ts:137 | the retry-after is enough exactly when the caller's clock is not behind, and a millisecond less never is |
| TokenBucket.TooDearForever | packages/analytics/src/token-bucket.ts:118-140 | a call that costs more than the capacity is never let through |
| TokenBucket.ResetIsExact | packages/analytics/src/token-bucket.ts:138 | the reset time is the least wait after which the bucket is full |
| TokenBucket.BucketKey.ConsumeScript | apps/api/src/lib/rate-limiter.ts:42-93 | the script's reply and stored hash are those of the pure rule on the hash shown, or on a full bucket |
| TokenBucket.ExpiryIsInvisible | apps/api/src/lib/rate-limiter.ts:162-172 | on one clock that does not run backwards the expiring bucket replies like the pure one that never expires |
| TokenBucket.TtlIsAMinuteOver | apps/api/src/lib/rate-limiter.ts:42-93 | a key is kept a minute longer than an empty bucket takes to fill |
| TokenBucket.ToldInSeconds | apps/api/src/lib/rate-limiter.ts:181-193 | the client is told the reply in whole seconds rounded up, and never to come back at once when refused |
| TokenBucket.SecondsSuffice | apps/api/src/lib/rate-limiter.ts:181-193 | a refused client that waits the whole seconds it is told, at least one, gets through |

## Left out

What the models leave open on purpose:

- A `char` is one code unit of the decoded file. Trimming, lower-casing, the import row schema, the
  commission a sale earns, link and relationship lookups, and what the database rejects are arbitrary
  functions, so the results hold for all of them.
- Every `$transaction` is one step, as if the database ran them serializably. Each drain, promotion
  pass and webhook pass sees the database as no other writer changes it meanwhile, except where
  interleaving is the subject (click queue, refresh tokens, lease, bounded runners, decisions about
  payouts, the drains of one webhook pass). Two webhook passes at once are what the lease is there to
  prevent and are not modelled. A webhook pass is killed between writes of different deliveries or
  before an answer is recorded, not between the writes of one answer.
- The database is taken to refuse an import slice exactly when it holds a row it rejects; duplicates
  within the slice are skipped, and a rejected row that is also a duplicate is taken as rejected.
- Money is whole cents. Fractions of a cent, the decimal-string detour in `round2` and binary floating
  point are not modelled; neither is rounding error in the bucket's token balance.
- Ledger.LedgerDb.ReportSale: states the rows a sale adds; pricing, attribution, duplicates and fraud scoring are not modelled.
- Ledger.LedgerDb.RequestPayoutFor: does not model payout profiles, the period dates, or a key looked up before the lock by two requests at once.
- Ledger.LedgerDb.PromoteLocks: which two hundred expired locks the query picks is arbitrary, so a lock that is never picked is not excluded.
- Lease.OverlapMeansOverdue: at most one body per instance; a release that Redis carries out after the caller gave up on it is not modelled.
- RefreshRuns.RevokedForGood: the clean-up that deletes settled rows is not modelled.
- ClickQueueRuns.EveryClickIsSomewhere: Redis writes succeed and no worker dies between pop and flush; what is queued is junk or a bare click, never a ready-made envelope.
- WebhookRuns.WebhookGuarantees: counts the requests that were answered; one that left and whose pass was killed spends no attempt. An event emitted by a transaction that commits after a 410 has disabled its endpoint is not modelled, nor are endpoints being deleted.

Parts of the repository that are not modelled:

- Claiming an import job, spooling and deleting its file, missing source files and campaigns: plumbing around the import.
- Paging, dates and file names of CSV exports.
- Notifications and webhook events raised by the ledger, and the revenue counters of tracking links.
- Sorting of counter updates by link, which only avoids deadlocks.
- Ownership and role checks, and the shapes of requests; a page holds at least one row, as the query schema demands.
- Cryptography, token signatures, hashing, base64 and user agents: opaque. So is the text of a cursor: `Pagination.Raw` is what is left of it once parsed, and many texts come to one.
- HTTP routes, sockets, name resolution, logging, metrics, heartbeats, analytics queries and the web application.
- The idempotency plugin, the link cache, campaign and role tables, backoff ranges and fingerprints: smaller guarantees than the cores above.
- Failures of Redis or Postgres themselves, and workers that throw inside the bounded map.
