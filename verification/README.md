# Pintail: verified models of its hard cores

Pintail's repository holds, beside its engine, several pieces whose correctness
is easy to promise and hard to see. This project models them in Dafny and
proves what they promise, for every input, every interleaving and every run.

| area | files |
|---|---|
| the audit queue: callers, one writer, a store that may refuse | `AuditRun`, `AuditFate`, `AuditWrite`, `AuditScript`, `AuditQueue`, `AuditSafety`, `AuditBytes`, `AuditOrder` |
| the validation driver: its stage table, three lanes, report and exit code | `StageTable`, `StagePlan`, `Lanes`, `LaneVerdict`, `LaneReport`, `LaneLog`, `LaneOutcome`, `LanePromise` |
| the driver's records: complete runs, run directories, shelved ledgers | `Runs`, `RunArchive`, `Shelf`, `ShelfTrace` |
| the answer comparator: ties under a LIMIT, the SQL scanners, the window rewrite | `TopK`, `SqlScan`, `SqlWords`, `Tiebreak`, `TiebreakText`, `TiebreakKeys`, `TiebreakWhich` |
| the instruction suite: calendar arithmetic and the zoned window's answer | `Calendar`, `Stamps`, `WindowAnswer` |
| the collation weight tables | `Weights` |
| chunked readers, the bug atlas and the samplers | `Streams`, `Atlas`, `Samplers` |
| text order, sorting and bags, shared | `Text`, `Bags`, `Options` |

How the outside world enters:

- The metadata store answers each request `Ok`, `Contended` or `Refused`, as a
  script any input may choose; a commit is atomic.
- Callers, the audit writer and the three validation lanes are step systems.
  Theorems quantify over every sequence of enabled steps.
- A stage passes, fails or aborts as it likes. Git and the file system are maps
  from path to content; each shelving is atomic, which is what the driver's
  chain of promises is for.
- Answers of the database engines, draws of the random generator and chunks of
  a stream are parameters. Reals stand for doubles.
- Text is a sequence of characters. The SQL scanners look only at ASCII, so
  UTF-16 code units and characters agree for them.

Where the code does less than it promises, the model follows the code, a lemma
gives an input that shows it, and another says exactly when the promise holds:

- `unshelveHarnessArtifacts` says a ledger a stage rewrote is never replaced by
  a stale copy. It is when the stage put the ledger back to its committed
  content after writing fresh evidence (`ShelfTrace.FreshEvidenceCanBeLost`), or
  deleted it (`ShelfTrace.DeletedLedgerReturnsStale`).
  `ShelfTrace.RunKeepsLastEvidenceIff` and `ShelfTrace.RunKeepsLastWrittenIff`
  say exactly when, over every run.
- `tiebroken` copies text twice when one rewritten window nests in another
  (`TiebreakText.NestedTextIsDuplicated`, `TiebreakText.OutsideIsKeptIff`).
- `tiebroken` says it appends `id` to a window's ORDER BY. It puts `id` before
  the first frame keyword of the window, which may stand before the ORDER BY;
  `marks` reads comments as text, so such a word can come from one
  (`TiebreakKeys.IdCanPrecedeTheKeys`, `TiebreakKeys.IdFollowsOrderByIff`).
- The weight extractor declares sixteen-bit tables, but a base can be -1 and an
  arena offset can outgrow them (`Weights.NegativeBase`, `Weights.LongArena`,
  `Weights.TablesFitIff`).

## Model

| member | source | states |
|---|---|---|
| AuditRun.ReplyAdvances | crates/pintail-api/src/audit.rs:400-453 | every reply of the store brings a batch strictly nearer to being settled |
| AuditRun.RepliesAreBounded | crates/pintail-api/src/audit.rs:400-453 | a batch of any size is settled within its size plus the attempts plus three replies |
| AuditRun.SettledForGood | crates/pintail-api/src/audit.rs:352-454 | once a batch is settled no later reply changes anything |
| AuditWrite.StoreWhole | crates/pintail-api/src/audit.rs:401-427 | one attempt at a whole batch: the store and the counters show exactly what the reply settles |
| AuditWrite.StoreOne | crates/pintail-api/src/audit.rs:434-451 | one event tried alone: stored, lost, or the rest of the batch given up |
| AuditWrite.StoreEach | crates/pintail-api/src/audit.rs:434-452 | the fallback loop ends settled, with store and counters showing exactly that run of replies |
| AuditWrite.WriteBatch | crates/pintail-api/src/audit.rs:352-454 | for every script of replies: rows, `lost`, `commits`, `attempts` change as the run of replies says, and `written` grows by the batch on every path |
| AuditFate.ReplySettles | crates/pintail-api/src/audit.rs:400-453 | what a reply stores and loses is exactly what joins the settled events |
| AuditFate.EveryReplyAccounts | crates/pintail-api/src/audit.rs:352-454 | after any number of replies the settled events are the stored and the lost ones, each once |
| AuditFate.AttemptsAreBounded | crates/pintail-api/src/audit.rs:400-453 | attempts never exceed the whole-batch attempts plus one per event already tried alone |
| AuditFate.WriteBatchAccounts | crates/pintail-api/src/audit.rs:341-454 | stored and lost together are the batch, event for event, within max(1, attempts) plus the batch size attempts |
| AuditFate.WriteBatchUnderContention | crates/pintail-api/src/audit.rs:343-346 | a store that opens and never refuses a whole batch stores it entire or loses it entire, and no event is tried alone |
| AuditFate.WriteBatchKeepsTheGood | crates/pintail-api/src/audit.rs:347-349 | with a fixed set of events refused and no contention, exactly the others are stored, in order |
| AuditScript.WriteBatchFollowsTheScript | crates/pintail-api/src/audit.rs:341-454 | for every script, from the replies alone: an unopened store loses the batch untried; a locked batch is tried at most max(1, attempts) times; once refused, each event is stored or lost as its own reply says, and from the first lock lost on nothing is stored or tried and all is lost; commits are the `Ok` replies to writes |
| AuditScript.PlacesExist | crates/pintail-api/src/audit.rs:400-453 | every script has the places that statement speaks of |
| AuditQueue.LiveMoves | crates/pintail-api/src/audit.rs:296-338 | the events that hold room change only by a grant and by a finish |
| AuditQueue.RoomKept | crates/pintail-api/src/audit.rs:296-338 | free room plus the room of every live event stays the capacity, step by step |
| AuditQueue.PlaceKept | crates/pintail-api/src/audit.rs:296-338 | every pushed event is in exactly one place: waiting, holding, in the inbox, in a batch, finished or abandoned |
| AuditQueue.FateKept | crates/pintail-api/src/audit.rs:310-337 | stored and lost rows are those of finished batches plus what open batches have settled |
| AuditQueue.CountKept | crates/pintail-api/src/audit.rs:296-338 | `queued`, `written` and `lost` count what the places and fates hold |
| AuditQueue.OrderKept | crates/pintail-api/src/audit.rs:310-337 | the one writer handles events in the order they were sent |
| AuditQueue.ShapeKept | crates/pintail-api/src/audit.rs:310-330 | every batch holds 1 to 512 events and only the writer, or a caller without one, has a batch open |
| AuditQueue.InvKept | crates/pintail-api/src/audit.rs:271-338 | every enabled step of callers, writer and store keeps all invariants |
| AuditSafety.EveryRunKeeps | crates/pintail-api/src/audit.rs:271-338 | they hold in every reachable state of a queue built for any number of bytes |
| AuditSafety.NeverOverfull | crates/pintail-api/src/audit.rs:184-195 | held bytes never exceed the capacity, and live events number at most capacity / min(EVENT_FLOOR, capacity) |
| AuditBytes.BytesAreBounded | crates/pintail-api/src/audit.rs:162-195 | in every reachable state the bytes live events own, counted from the events alone and at most the whole queue each, are within the capacity, and the free room is exactly what is left of it |
| AuditBytes.BoundedIsNearest | crates/pintail-api/src/audit.rs:271-281 | a queue's capacity is the one asked for, brought within what a semaphore can hold |
| AuditBytes.DefaultQueueHoldsFewEvents | crates/pintail-api/src/audit.rs:184-195 | a queue of 32 MiB holds at most 32768 events |
| AuditBytes.WaitsIffFull | crates/pintail-api/src/audit.rs:296-309 | a caller waits, and is counted as waiting, exactly when its event's bytes and those held exceed the capacity |
| AuditBytes.CountersTellTheRun | crates/pintail-api/src/audit.rs:296-454 | over every run `waited` counts the callers that found the queue full, `attempts` the writes the store answered and `commits` those answered `Ok` |
| AuditBytes.FirstSendStartsTheWriter | crates/pintail-api/src/audit.rs:310-338 | the writer runs exactly when the thread asked for by the first send started, and no later send asks again |
| AuditBytes.GrantedIffFits | crates/pintail-api/src/audit.rs:296-309 | a waiting caller can be let in exactly when its bytes fit |
| AuditSafety.OnlyAnswersWrite | crates/pintail-api/src/audit.rs:400-453 | in the queue only a reply to a write stores, commits or counts as an attempt, and an `Ok` one stores exactly the rows asked for |
| AuditSafety.ClosedShortHoldsAll | crates/pintail-api/src/audit.rs:320-331 | the writer closes a batch short of 512 events only when it holds every event sent and not yet finished |
| AuditSafety.EveryEventIsAccounted | crates/pintail-api/src/audit.rs:296-338 | `queued` is finished plus waiting plus on the way plus abandoned; no event is stored twice, stored and lost, or stored unpushed |
| AuditSafety.FinishedAreStoredOrLost | crates/pintail-api/src/audit.rs:352-454 | between batches the finished events are exactly the stored and the lost ones, and the counters agree |
| AuditSafety.NeverStuck | crates/pintail-api/src/audit.rs:296-338 | while anything is unfinished a caller or the writer can go on, even with an event larger than the whole queue |
| AuditSafety.StepsFall | crates/pintail-api/src/audit.rs:296-338 | every step but an arrival brings the end nearer |
| AuditSafety.DrainEnds | crates/pintail-api/src/audit.rs:296-338 | with no arrivals a run has bounded length |
| AuditSafety.DrainedQueueIsWhole | crates/pintail-api/src/audit.rs:296-338 | where a run can go no further all room is returned and every pushed event was stored once, lost once or abandoned |
| AuditSafety.BadEventsCostOnlyThemselves | crates/pintail-api/src/audit.rs:347-349 | in every interleaving, once quiet: an event is stored if and only if it was pushed, not abandoned and not a refused one |
| AuditOrder.RowsKept | crates/pintail-api/src/audit.rs:310-337 | every step keeps the rows a subsequence of what the one writer has settled |
| AuditOrder.StoredInTheOrderSent | crates/pintail-api/src/audit.rs:296-338 | in every reachable state with a running writer the stored events are a subsequence of the events sent |
| StageTable.StagesWellDeclared | scripts/validate.ts:122-416 | the declared table has distinct names, the oracle before every second-host stage, and lanes and exclusivity as the scheduler needs them |
| StageTable.GroupRequested | scripts/validate.ts:1187-1196 | the grouping loop yields the groups of the requested stages in declared order |
| StagePlan.FormsPartition | scripts/validate.ts:1272-1308 | every requested stage runs in exactly one place |
| StagePlan.SplitSides | scripts/validate.ts:1272-1308 | no exclusive stage and no oracle leaves the first host, and only second-host stages move to the second |
| StagePlan.GroupsAreLaneRuns | scripts/validate.ts:1187-1196 | the groups hold the requested stages in order, and neighbours share one exactly when they share a lane |
| StagePlan.SplitPlaces | scripts/validate.ts:1272-1308 | where each requested stage goes, as its marks and the two environment switches say |
| StagePlan.SplitInOrder | scripts/validate.ts:1272-1308 | each part keeps the declared order |
| StagePlan.SplitIsSound | scripts/validate.ts:1272-1308 | for every request, overlapping or not, with or without a second host, the split is a partition with the oracle's group first |
| Lanes.GateKept | scripts/validate.ts:1284-1347 | every step of the three lanes keeps exclusivity and the oracle gate |
| Lanes.EveryRunGated | scripts/validate.ts:1284-1347 | they hold in every reachable state |
| Lanes.ExclusiveStagesRunAlone | scripts/validate.ts:1328-1331 | at no moment of any run does an exclusive stage overlap a second-host stage |
| Lanes.OracleGatesSecondHostStages | scripts/validate.ts:1297-1347 | no second-host stage runs before the results hold a PASS row for a requested oracle |
| LaneVerdict.TotalKept | scripts/validate.ts:1187-1266 | no step makes a stage be planned, running or reported more often than before |
| LaneVerdict.BadKept | scripts/validate.ts:1187-1266 | a row that did not pass stays, and a stage is dropped only because of one |
| LaneVerdict.EveryRunKeeps | scripts/validate.ts:1284-1347 | the counting invariants hold over every run of every request |
| LaneReport.OneRowPerStage | scripts/validate.ts:1347-1370 | no stage gets two result rows and none that was not requested gets one |
| LaneReport.PassesAreComplete | scripts/validate.ts:1356-1382 | a report of passes only has every requested stage |
| LaneReport.ExitsZeroIffAllPassed | scripts/validate.ts:1378-1382 | a finished run exits 0 if and only if every requested stage has a PASS row |
| LaneReport.NeverStuck | scripts/validate.ts:1284-1354 | until every lane rests some lane can move |
| LaneReport.EveryRunEnds | scripts/validate.ts:1284-1354 | a run's length is bounded by its plan |
| LaneReport.DriverKeepsItsPromise | scripts/validate.ts:1187-1437 | from the declared table to the exit code, for every request, interleaving and outcome |
| LaneLog.LogKept | scripts/validate.ts:1200-1354 | every step keeps each lane's rows in step with the stages the run has ended: chains end in order and stop at the first that does not pass, groups end entire |
| LaneOutcome.LocalRanIff | scripts/validate.ts:1284-1292 | in a finished run a local stage ran exactly when every local stage before it passed |
| LaneOutcome.SecondStartedIff | scripts/validate.ts:1310-1326 | the second sequence was started exactly when it has stages and the oracle's group passed, or the first host has no oracle |
| LaneOutcome.SecondRanIff | scripts/validate.ts:1310-1326 | a stage of it ran exactly when it was started and every stage before it passed |
| LaneOutcome.FirstRanIff | scripts/validate.ts:1328-1347 | a stage of the first host ran exactly when every group before its own passed and, for an exclusive group with the second sequence started by then, all of that sequence passed |
| LanePromise.ReportHas | scripts/validate.ts:1346-1372 | a report has a row exactly when the run ended that stage with that verdict, or the row is ABORTED and the stage, local or of the second sequence, never ran |
| LanePromise.ReportIsInOrder | scripts/validate.ts:1354-1372 | rows stand in declared order, rows for missed local stages last |
| LanePromise.ReportTellsTheRun | scripts/validate.ts:1187-1437 | for every request, interleaving and outcome, from the End steps alone: what the report says, and exit 0 if and only if every requested stage ended with a pass |
| LanePromise.OracleEndsFirst | scripts/validate.ts:1297-1347 | no second-host stage runs before the run ended a requested oracle with a pass |
| Runs.Pigeonhole | scripts/validate.ts:942-951 | a list as long as a duplicate-free one that contains all of it rearranges it |
| Runs.SpellsIsRearranging | scripts/validate.ts:942-951 | an explicit stage list spells a profile exactly when it rearranges its stages |
| Runs.MatchedIff | scripts/validate.ts:942-951 | a run satisfies a profile exactly when it claims it or its list rearranges that profile's stages |
| Runs.CompleteMeansAWholeProfile | scripts/validate.ts:1378-1388 | a finished run is complete exactly when its rows are one named profile's stages, once each and all passed |
| RunArchive.Archive.Begin | scripts/validate.ts:988-992 | a run adds its directory and repoints `latest` |
| RunArchive.Archive.Prune | scripts/validate.ts:830-838 | the loop removes exactly the old names nothing points at |
| RunArchive.Archive.Report | scripts/validate.ts:1433-1434 | repoints `latest-complete` for a complete run only, then prunes |
| RunArchive.PruneBounds | scripts/validate.ts:826-838 | at most RUNS_RETAINED + 2 directories remain and both pointed-at ones do |
| RunArchive.PrunedIff | scripts/validate.ts:826-838 | a directory survives pruning exactly when a pointer names it or fewer than RUNS_RETAINED are newer by name |
| RunArchive.ArchiveHolds | scripts/validate.ts:797-838 | over any sequence of runs, stopped or finished, the pointers name the last run and the newest complete one, both are on disk, and the bound holds after each report |
| Shelf.Driver.CopyAside | scripts/validate.ts:1040-1047 | the copy loop puts every dirty file's content on the shelf and remembers every dirty path |
| Shelf.Driver.Shelve | scripts/validate.ts:1023-1060 | refuses a dirty path outside the ledgers, otherwise leaves the shelf and tree the specification says, failed checkout included, and returns true exactly when the tree is the committed one |
| Shelf.Driver.Restore | scripts/validate.ts:1048-1060 | removes the untracked ledgers, checks the tracked ones out, and returns true exactly when the tree is then the committed one |
| Shelf.Driver.Unshelve | scripts/validate.ts:1073-1099 | puts back exactly the remembered paths that are at their committed content |
| Shelf.StrayStops | scripts/validate.ts:1023-1060 | a dirty path that starts with no ledger prefix leaves the disk untouched; without one a successful shelving leaves the committed tree |
| Shelf.RestoredAll | scripts/validate.ts:1048-1057 | a shelving whose checkout succeeds leaves the committed tree |
| ShelfTrace.RunSeenFrom | scripts/validate.ts:1023-1099 | any interleaving of writes, deletions and shelvings, seen from one path, is a run of that path alone |
| ShelfTrace.CellTracks | scripts/validate.ts:1040-1047 | the shelf holds the last file a shelving found with content of its own, and a path is remembered exactly when some shelving found it changed |
| ShelfTrace.LastStandingEvidenceRemainsIff | scripts/validate.ts:1073-1099 | a path ends with the last content differing from the committed one among those a shelving or the end found, if and only if that was not a deletion since undone |
| ShelfTrace.LedgersAfterARun | scripts/validate.ts:1023-1099 | what every path holds after every run of writes, deletions and shelvings, over any starting tree and leftover shelf |
| ShelfTrace.RunKeepsLastEvidenceIff | scripts/validate.ts:1023-1099 | the if-and-only-if above for every path of every run |
| ShelfTrace.LastWrittenRemainsIff | scripts/validate.ts:1074-1079 | whatever is put back or deleted later, the evidence written last remains if and only if the path is not left deleted and the evidence still stood at the next shelving or the end, or the shelf held it already |
| ShelfTrace.RunKeepsLastWrittenIff | scripts/validate.ts:1074-1079 | the same for every path of every run |
| ShelfTrace.FreshEvidenceCanBeLost | scripts/validate.ts:1074-1079 | a run, for any path and contents, after which an older copy has replaced fresh evidence |
| ShelfTrace.DeletedLedgerReturnsStale | scripts/validate.ts:1088-1095 | a run after which a deleted committed ledger holds what an earlier run left on the shelf |
| TopK.ValidTopK | benchmark/corpus-compare.ts:163-177 | true if and only if some order of the full answer that keeps each position's tie group has the answer as its window |
| TopK.LegalFillsTheLimit | benchmark/corpus-compare.ts:159-164 | a legal answer never has more rows than the LIMIT says, and fewer only where the full answer runs out |
| TopK.DrawAll | benchmark/corpus-compare.ts:165-176 | the decremented pool decides bag inclusion |
| TopK.Arrange | benchmark/corpus-compare.ts:159-177 | drawable rows can be brought to the window, one swap within a tie group at a time |
| TopK.LegalIsDrawable | benchmark/corpus-compare.ts:159-177 | legal readings and drawable answers are the same |
| TopK.BagEqual | benchmark/corpus-compare.ts:33-38 | holds exactly when the bags of row keys are equal |
| TopK.Classify | benchmark/corpus-compare.ts:251-267 | `order` exactly for equal bags; otherwise `limit` exactly when the lengths match and the answer lies within the full one |
| TopK.LegalIsWithin | benchmark/corpus-compare.ts:159-177 | a legal answer draws no row more often than the full answer holds it |
| TopK.OrderOf | benchmark/corpus-compare.ts:141-157 | `checked` exactly when both answers are legal, `differs` exactly when only MySQL's is |
| TopK.Explain | benchmark/corpus-compare.ts:276-348 | two answers are called different exactly when every check fails, and which way exactly as `classify` says; each reason is given exactly when its check is the first to hold |
| SqlScan.SkipQuoted | benchmark/corpus-compare.ts:51-58 | the inner loop both scanners share ends where the quoted text does |
| SqlWords.QuoteEndsFirst | benchmark/corpus-compare.ts:51-58 | quoted text ends at the first quote with an even number of backslashes before it, in backticks at the first one, or with the statement |
| SqlScan.Closing | benchmark/corpus-compare.ts:74-92 | the least position where unquoted parentheses rebalance, and -1 exactly when there is none |
| SqlScan.ClosingIsLeast | benchmark/corpus-compare.ts:74-92 | the same of its recursive form, at any starting depth |
| SqlScan.KeywordIsInert | benchmark/corpus-compare.ts:42-69 | a matched keyword hides no quote, parenthesis or keyword |
| SqlWords.KeywordIff | benchmark/corpus-compare.ts:42-69 | a place starts a keyword exactly when the keyword's letters stand there, in any case, and no word goes on after them; ORDER BY with one to nine spaces between |
| SqlWords.SpaceIff | benchmark/corpus-compare.ts:42-42 | the white space of the scanner, code point by code point |
| SqlWords.CharactersIff | benchmark/corpus-compare.ts:50-62 | its quotes, word characters and places where a word may start, the same way |
| SqlScan.Marks | benchmark/corpus-compare.ts:44-72 | stepping over words a whole one at a time finds what reading every character finds |
| SqlScan.MarksAreAll | benchmark/corpus-compare.ts:44-72 | the marks are exactly the keywords that start a word outside quotes, with their depths |
| SqlScan.StaysOpen | benchmark/corpus-compare.ts:74-92 | up to its closing parenthesis everything lies deeper than an open one |
| SqlScan.ScannersAgree | benchmark/corpus-compare.ts:44-92 | marks between an open parenthesis and the one `closing` finds are deeper, and the depth is restored right after |
| Tiebreak.StepAt | benchmark/corpus-compare.ts:188-205 | a rewritten window opens right after its OVER, closes where its parenthesis does, and an ordered one gains `id` at its frame keyword, or at its close if it has none |
| TiebreakWhich.IsIdIff | benchmark/corpus-compare.ts:201-201 | a key is `id` exactly when, but for outer spaces, it reads `id` alone or before ASC or DESC, in any letter case |
| TiebreakWhich.NamesIdIff | benchmark/corpus-compare.ts:200-201 | some sort key is `id` exactly when some stretch between commas is, by positions |
| TiebreakWhich.RewrittenIff | benchmark/corpus-compare.ts:188-207 | a window is rewritten exactly when it closes and has neither order nor frame, or has an order none of whose keys up to its frame is `id`; the rewrite gives up exactly when a window does not close |
| TiebreakWhich.RewrittenAs | benchmark/corpus-compare.ts:195-207 | a rewritten window is taken as ordered exactly when it has an ORDER BY, and as framed exactly when it has a frame keyword |
| TiebreakWhich.WindowsAreAll | benchmark/corpus-compare.ts:187-212 | the windows replaced are those of all the marks that call for it |
| TiebreakWhich.NoRewriteIff | benchmark/corpus-compare.ts:188-213 | the rewrite yields nothing exactly when some window stays open or none changes |
| TiebreakWhich.UnopenedPasses | benchmark/corpus-compare.ts:188-191 | a mark that no parenthesis follows is passed over |
| Tiebreak.Tiebroken | benchmark/corpus-compare.ts:179-213 | nothing if a window never closes or none changes, and otherwise the statement with each window's text replaced |
| TiebreakText.InnerClosesFirst | benchmark/corpus-compare.ts:74-92 | a parenthesis opened inside a closed one is closed, and inside it |
| TiebreakText.ApartOrNested | benchmark/corpus-compare.ts:188-194 | two windows of a statement are apart or nested |
| TiebreakText.WindowsInOrder | benchmark/corpus-compare.ts:187-211 | rewritten windows open outside quotes and in order |
| TiebreakText.OutsideIsKeptIff | benchmark/corpus-compare.ts:183-213 | the text outside the rewritten windows is copied once and in order if and only if none nests in another |
| TiebreakText.BlankIsCopied | benchmark/corpus-compare.ts:208-212 | with its new windows blank the result is the text at the copied positions |
| TiebreakText.UnnestedKeepsText | benchmark/corpus-compare.ts:183-213 | so without nesting all text outside OVER parentheses is unchanged |
| TiebreakText.OwnTextsGiveTheStatement | benchmark/corpus-compare.ts:208-212 | each new text goes where its window's old one was: with the old texts, unnested, the statement comes back |
| TiebreakWhich.SpanningText | benchmark/corpus-compare.ts:205-207 | a window without an order becomes its text without outer spaces, one space and the ordering under a frame that spans the partition |
| TiebreakWhich.KeyedText | benchmark/corpus-compare.ts:198-202 | an ordered window keeps its text up to the spaces before its frame keyword or close, gains `, id` there and keeps its frame |
| TiebreakText.IdIsInside | benchmark/corpus-compare.ts:195-199 | the place `id` is put in lies inside the window |
| TiebreakKeys.IdFollowsOrderByIff | benchmark/corpus-compare.ts:179-202 | that place is after the window's ORDER BY if and only if no frame keyword of the window stands before the ORDER BY |
| TiebreakKeys.IdCanPrecedeTheKeys | benchmark/corpus-compare.ts:195-202 | a statement whose window gains `, id` before its ORDER BY |
| TiebreakText.NestedTextIsDuplicated | benchmark/corpus-compare.ts:208-212 | an input whose nested window makes a parenthesis be copied twice |
| Calendar.YearIsRight | benchmark/instruction-suite/src/lib.rs:295-300 | the year formula finds the year that holds the day, in every 400-year era |
| Calendar.MonthIsRight | benchmark/instruction-suite/src/lib.rs:301-302 | the month formula finds the month that holds the day |
| Calendar.CivilCounts | benchmark/instruction-suite/src/lib.rs:295-306 | for every day the formula gives the date counted on from 1970-01-01 by the calendar, and it is a valid date |
| Calendar.CivilNext | benchmark/instruction-suite/src/lib.rs:295-306 | the next day's date is the calendar's next, leap centuries included |
| Calendar.CivilRoundTrip | benchmark/instruction-suite/src/lib.rs:295-306 | counting the days of the date gives the day back |
| Calendar.DateRoundTrip | benchmark/instruction-suite/src/lib.rs:295-306 | every valid date from 1970 on is the date of its day |
| Calendar.CivilGrows | benchmark/instruction-suite/src/lib.rs:295-306 | later days have later dates |
| Stamps.PaddedReads | benchmark/instruction-suite/src/lib.rs:308-325 | a padded number reads back as itself and is longer than its width only if it does not fit |
| Stamps.DateReads | benchmark/instruction-suite/src/lib.rs:308-311 | a date's text has its year, month and day at their places, dashes between |
| Stamps.StampReads | benchmark/instruction-suite/src/lib.rs:313-325 | a date-time's is its date, a space and its time of day |
| Stamps.ClockReads | benchmark/instruction-suite/src/lib.rs:313-325 | whose hours, minutes and seconds, read off their places, make up the time |
| Stamps.PaddedSorts | benchmark/instruction-suite/src/lib.rs:308-325 | numbers that fit their width sort as their zero-padded text |
| Stamps.DaysSort | benchmark/instruction-suite/src/lib.rs:308-311 | for years of four digits the text order of dates is the order of days |
| Stamps.StampsSort | benchmark/instruction-suite/src/lib.rs:313-325 | and the text order of date-times is the order of time |
| Stamps.DateOfStamp | benchmark/instruction-suite/src/lib.rs:614-614 | the first ten characters of a date-time are its date |
| WindowAnswer.Expected | benchmark/instruction-suite/src/lib.rs:608-624 | one entry a day from the first event's to the last one's, in calendar order and without a gap, each with exactly that day's events and price |
| WindowAnswer.CountIsOfEvents | benchmark/instruction-suite/src/lib.rs:616-616 | a day's count is the number of its events |
| WindowAnswer.PriceIsOfEvents | benchmark/instruction-suite/src/lib.rs:617-617 | a day's price adds up over its events, each adding its own |
| WindowAnswer.WindowIsTheQuerys | benchmark/instruction-suite/src/lib.rs:609-613 | the loop's bounds select exactly the events whose time, as the +05:30 session writes it, is BETWEEN the query's two stamps |
| WindowAnswer.AnswerConserves | benchmark/instruction-suite/src/lib.rs:613-618 | the counts of an answer's entries add up to the selected events, and their prices to the events' prices |
| Weights.Build | scripts/extract-unicode-ci-weights.ts:110-133 | tables for every map that weighs every code point, and otherwise the first one that has no weight |
| Weights.TablesAreBuilt | scripts/extract-unicode-ci-weights.ts:105-133 | each table is strictly sorted and holds its own code points' weights, arena slices tile the arena, ranges are disjoint and none could be merged, and every code point is held |
| Weights.DerivedSpells | scripts/extract-unicode-ci-weights.ts:100-108 | the implicit rule puts the code point's low fifteen bits under a set top bit and the rest beside the base, which is read off exactly the weights the rule makes |
| Weights.OneTable | scripts/extract-unicode-ci-weights.ts:115-132 | no code point is in two tables |
| Weights.NoRangeSpansTheGap | scripts/extract-unicode-ci-weights.ts:110-121 | no implicit range spans the surrogates |
| Weights.FindKey | crates/pintail-exec/src/collation/mod.rs:478-482 | the search finds the code point exactly when the table has it |
| Weights.FindSpan | crates/pintail-exec/src/collation/mod.rs:487-497 | the search finds the range that holds the code point exactly when one does |
| Weights.Lookup | crates/pintail-exec/src/collation/mod.rs:474-500 | for every code point the lookup gives back the weights the tables were built from |
| Weights.TablesFitIff | scripts/extract-unicode-ci-weights.ts:98-103 | every number of the tables fits sixteen bits if and only if no implicit base falls below zero and every slice of the arena has a start and a count of sixteen bits |
| Weights.NegativeBase | scripts/extract-unicode-ci-weights.ts:98-103 | sixteen-bit weights whose table does not fit |
| Weights.LongArena | scripts/extract-unicode-ci-weights.ts:131-132 | two weights for every code point make an arena that its offsets do not reach |
| Streams.SplitJoins | scripts/archaeology/atlas.ts:100-107 | the pieces of a split hold no mark and make up the text again |
| Streams.SplitMore | scripts/archaeology/atlas.ts:100-107 | more text changes only the last piece of a split |
| Streams.ParseIff | scripts/archaeology/atlas.ts:92-98 | a piece is a commit exactly when it has a header's end, and the first one parts header from paths |
| Streams.LogRecords | scripts/archaeology/atlas.ts:86-111 | for every chunking it yields the commits of the whole log split at the record mark |
| Streams.ResourceStream.constructor | benchmark/run.ts:596-607 | a stream starts with nothing read and nothing recorded |
| Streams.ResourceStream.Read | benchmark/run.ts:609-629 | after every chunk the samples are those of the complete lines of all the text so far, and earlier samples stay |
| Streams.TakenGrows | benchmark/run.ts:609-629 | the samples after more chunks begin with the samples before them |
| Streams.Sampled | benchmark/run.ts:699-706 | a count, any chunks read meanwhile and the samples since give exactly what the stream gained |
| Streams.WindowsPartition | benchmark/run.ts:652-660 | for any chunking and any nondecreasing times, the windows between them put together are what the stream gained from the first time to the last |
| Streams.SampledInTurn | benchmark/run.ts:699-706 | samplers taken one after another on one stream hold every sample between them, once and in order |
| Atlas.AddCommit | scripts/archaeology/atlas.ts:158-164 | one commit changes exactly the bugs it names, a repeated name changing nothing more |
| Atlas.Fold | scripts/archaeology/atlas.ts:156-165 | each bug has the earliest year, the union of classes and any test of the commits that name it |
| Atlas.Era | scripts/archaeology/atlas.ts:171-171 | a bug's era is the multiple of five whose five years hold its year |
| Atlas.BugsAreUnique | scripts/archaeology/atlas.ts:152-165 | a set of commits determines its bugs |
| Atlas.Tally | scripts/archaeology/atlas.ts:166-178 | in any order of bugs: every class's bugs, tested bugs and bugs per era are counted, and unclassified bugs apart |
| Atlas.Summarize | scripts/archaeology/atlas.ts:155-180 | all of it from a list of commits |
| Atlas.SummaryIsOfTheSet | scripts/archaeology/atlas.ts:152-180 | order and repeats of commits do not matter |
| Atlas.TallyAddsUp | scripts/archaeology/atlas.ts:166-179 | total is unclassified plus classified, tested never exceeds bugs, era counts sum to bugs |
| Samplers.FillThenDivide | benchmark/workloads/commerce-production-v1/seed.ts:43-51 | the in-place table of Zipf holds each prefix's share of the total |
| Samplers.AccumulateShares | benchmark/workloads/commerce-production-v1/seed.ts:108-119 | so does the table that replaces its own weights |
| Samplers.TableRises | benchmark/workloads/commerce-production-v1/seed.ts:43-51 | the table is nondecreasing, ends at 1 and steps by each weight over the total |
| Samplers.Search | benchmark/workloads/commerce-production-v1/seed.ts:52-62 | the binary search finds the rank a draw falls to |
| Samplers.Scan | benchmark/workloads/commerce-production-v1/seed.ts:131-133 | the linear scan finds the same |
| Samplers.OneRank | benchmark/workloads/commerce-production-v1/seed.ts:52-62 | there is one such rank, so search and scan agree |
| Samplers.Zipf.constructor | benchmark/workloads/commerce-production-v1/seed.ts:43-51 | a new sampler holds its weights' table |
| Samplers.Zipf.Sample | benchmark/workloads/commerce-production-v1/seed.ts:52-62 | a draw u gives rank i exactly when u is in (cdf[i-1], cdf[i]]; 0 gives the first rank |
| Samplers.TimeSampler.constructor | benchmark/workloads/commerce-production-v1/seed.ts:84-121 | both tables of a time sampler, for days and for hours |
| Samplers.TimeSampler.Sample | benchmark/workloads/commerce-production-v1/seed.ts:123-136 | day and hour each fall to the weight whose share the draw is in |

## Left out

- The storage, CDC and SQL engine crates are not part of this model.
- Docker, SSH, git, processes, HTTP and database clients appear only as the outcomes they may have.
- The semaphore's partial assignment of permits and its fairness: a grant takes all its permits at once, in any order of callers.
- AuditQueue.Finished: one step counts a batch as written and gives all its room back; the source counts first and then drops the events one by one, so room comes back a little later and in parts.
- Labels of actors and the other columns of an audit row: an event is its id and the bytes it owns.
- The retry of a stage within `runStage`: a stage's outcome is the one it ends with.
- Races inside one shelving: each is atomic.
- `rowKey`, `membersSorted`, `spellingFolded` and `withoutLimit`: rows are opaque keys, and the pool's key, a tie group joined to a row key, is a pair.
- `ordered` and the meaning of the rewritten SQL: its shape and the engines' answers are parameters of `TopK.OrderOf` and `TopK.Explain`.
- WindowAnswer.Expected: needs a row count of at least one, below which the source subtracts one from zero; it yields the entries, not their printed lines.
- Calendar.CivilCounts: numbers are unbounded; in the source the largest days would overflow 64 bits.
- The hexadecimal reading of weights and the printing of the tables.
- UTF-8 decoding of chunks, the fields of a commit's header and the numbers of a stats line: pieces of text and a function from lines.
- Days' weights in `TimeSampler` and Zipf's powers: weights are given, nonnegative with a positive sum, as the division by their sum needs.
- `inShuffledOrder`, `roundRobin`, `BatchWriter`, `weightedPick` and `digest` would only add easy members.
