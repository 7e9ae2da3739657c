# Verified model of the knowledge agents

A model of the stateful parts of the knowledge-agents service, with proofs of what they keep.
`dafny verify dfyconfig.toml` checks all of it.

Five parts are modelled.

- **The incremental vector index.** Scanned notes are compared with index records; a changed note gets
  a new generation of points that is upserted, validated and recorded before the stale points are
  deleted. Every call of the stores may fail, upserts and deletes after part of their effect, and is
  entered in a journal (`IndexState`, `IndexTrace`, `IndexPorts`, `IndexService`, `PointIds`).
- **The Markdown chunker.** A line parser, a splitter, a greedy packer and an overlap pass
  (`Text`, `Markdown`, `Patterns`, `Outline`, `Chunker`).
- **Leases and deliveries.** The `runs` table with its statements (`LeaseStore`, `IsoTime`), what one
  worker does with a message (`Delivery`, `Worker`), and any number of workers on one table with
  redelivery, failing calls, stalls, crashes and other components at work (`WorkerProtocol`).
- **The review graph and its budget.** Thirteen nodes with one loop; agent answers are arbitrary values
  that satisfy their contracts (`Contracts`, `Routing`, `Curation`, `Budgets`, `ReviewGraph`,
  `RunGraph`, `ReviewRuns`, `ReviewSafety`, `ReviewReach`).
- **The vault and the repair queue.** Rendering and scanning notes, persisting a run's drafts, and
  retrying secondary writes (`VaultNotes`, `VaultBodies`, `VaultReading`, `VaultWriter`, `Repairs`).

`Wrappers`, `Ordering` and `Decimal` hold what these share: results, text order and sorting, and
numbers as text.

## How the model relates to the code

Code that changes things step by step is modelled by methods and classes: the index service and its
ports, the chunker's loops, the worker, the run store, the budget manager, the graph nodes, the scanner's
loop, the vault writer and the repair service. Each method is proved against a specification, and the
lemmas are about that specification. A graph node returns an update of the run state; `RunGraph` applies
it to a field, and `ReviewGraph` has the same step as a function so that lemmas can speak of whole runs.
Concurrency is a transition system whose steps are single SQL statements or `BEGIN IMMEDIATE` blocks
(`WorkerProtocol`); `Worker` and `WorkerProtocol` share the automaton of `Delivery`, so the calls the
worker's code makes are the calls the protocol interleaves. Failures are nondeterministic answers.

sha256 and uuid5 are taken to be injective: a generation, a point id and an issue fingerprint are the
values that are hashed. A draft's hash is any function of the draft. Costs, durations, delays and jitter
are reals. `LengthsDiffer` and `ColonInGenerationBreaksTheKey` are remarks beside the results.

## What is not so

Where the code does not keep a property that one might expect, the exact condition is proved.

- **Approvals.** A review may approve and block the same note; the contract does not forbid it
  (`src/knowledge_agents/domain/contracts.py:228-238`). Approved hashes survive every revision exactly when it does
  not happen (`ApprovalsSurviveIff`). Decisions are not frozen at all: an accepted revision can decide any note
  anew, while its draft is kept exactly if the note is not blocked (`OtherDecisionsCanChange`, `CombinedNote`).
- **Heading paths.** A heading keeps the first n - 1 entries of the path, counted by position. The path is
  the chain of enclosing headings exactly when every heading that is no deeper than the one before it finds
  an open section of every level above its own (`PathIsOpenChainIff`, `SkippedLevelIsMisfiled`).
- **Sections.** A body may hold a line that reads as a heading; the sections can be read back from the note when
  none does (`NotesAreReadable`, `HeadingInBodyIsAmbiguous`).
- **Exclusion.** Two workers execute one run at once when worker ids are shared or when a worker stalls past
  its lease (`BothExecute`).
- **Terminal statuses.** Acquiring a lease writes the running status without looking at the one it replaces, so
  an acknowledged run can be taken again (`AcknowledgedRunStartsAgain`). A stage update without a status
  writes back the status it read first, whatever was written since (`StageUpdateUndoesStatus`).
- **Rebuild.** A complete scan with a duplicate path or an unknown collection is refused only after the
  collections and records were emptied (`Rebuild`).
- **Retries.** The bound on attempts needs the repair service's own writes to be stored
  (`HandlerCallsAreBounded`, `LostWritesRetryForever`).
- **Cost and duration.** Agent nodes reserve neither, so the last call of any run whose gate admits it can
  overrun both (`LastCallCanOverrun`, `RunCanOverrunCostAndDuration`). Only the last call can
  (`OnlyTheLastCallOverruns`), and a total is kept exactly when the last call used at most what was left of it
  (`WithinIffLastCallFits`).
- **Orphans.** A failed stale delete leaves every stored point of the old record without an owner
  (`FailedCleanupLeavesOrphans`). They stay: the path is current, and a sync of a settled index changes nothing
  (`OrphanSurvives`). A sync in which no delete raised leaves no new orphan, whatever else failed (`Sync`), and
  a rebuild clears all (`Rebuild`).
- **Sync exceptions.** A failed reading or validation of one record ends the whole sync and no repair is queued,
  while a failed replacement or removal is reported and survived (`RaisesIff`).

## Model

| member | source | states |
|---|---|---|
| `IndexService.IndexService.Sync` | src/knowledge_agents/application/services/index_service.py:108-162 | Under any pattern of failures of the ports: every path gets a verdict that says exactly what became of its record and points, paths without a verdict are untouched, and the result lists are those of the verdicts. The calls made are exactly those of the course the outcome states: one turn per scanned path in sorted order, then the listing and one removal per unseen record, then the repair. A sync raises only for an invalid scan, at a record it could not read or validate, at the listing or at the queueing, and a repair is asked for exactly when a path kept its old state, a removal failed, a stale delete raised or the collections could not be ensured; then, and only then, the run is queued. With a store that works and no record describing its source it returns, whatever the index does. No scanned note loses its record. If no delete raised there is no new orphan point. Without failures the index ends settled (every scanned note has a matching, complete record, and after a complete scan there is no other record); a settled index is not changed by another sync, even if calls fail. |
| `IndexService.RaisesIff` | src/knowledge_agents/application/services/index_service.py:108-162 | Of a valid scan, a sync raises exactly when the last call it made is a failed reading of a record, a failed validation of a record that describes its source, a failed listing of the records or a failed queueing of the repair; every other failure is survived. |
| `IndexService.AnswersDecide` | src/knowledge_agents/application/services/index_service.py:126-137 | What the stores answered in a turn leaves no choice of its verdict, and no turn that reaches a verdict is one that ends in an exception. |
| `IndexService.ReportIsPartition` | src/knowledge_agents/application/services/index_service.py:139-162 | Each scanned path is in exactly one of the indexed, unchanged and failed lists and not in the deleted one; no other path is reported as indexed or unchanged, and none is both deleted and failed. |
| `IndexService.FailedCleanupLeavesOrphans` | src/knowledge_agents/application/services/index_service.py:278-288 | A swap whose stale delete fails makes its path current and turns every stored point of the old record into an orphan. |
| `IndexService.IndexService.OrphanSurvives` | src/knowledge_agents/application/services/index_service.py:126-137 | On a settled index an orphan is still there after another sync, whatever fails in it. |
| `IndexService.IndexService.Rebuild` | src/knowledge_agents/application/services/index_service.py:164-177 | The calls that empty the stores are made up to the first failure. If one fails, every scanned path is reported as failed and nothing else is done but queueing the repair, the only call that can then raise; otherwise the rest is a sync of empty stores, with its verdicts, lists and calls. Without failures, a complete valid scan is reported as all indexed, and the stored points are exactly the points the records own; a complete but invalid scan is refused only after everything was emptied; an incomplete scan makes no call. |
| `IndexService.IndexService.SyncTwice` | src/knowledge_agents/application/services/index_service.py:108-162 | A second failure-free sync of the same scan indexes, deletes and fails nothing and reports every scanned path, sorted, as unchanged. |
| `IndexService.IndexService.SyncSources` | src/knowledge_agents/application/services/index_service.py:126-137 | The loop over the scanned sources in path order: each turn made the calls and reached the verdict that its source and record require, whatever failed in the turns before; it is left early only by an exception while a record is read or validated, with one turn for every path before. Without a failed delete there is no new orphan. |
| `IndexService.IndexService.RemoveUnseen` | src/knowledge_agents/application/services/index_service.py:139-152 | The loop over records whose notes are gone: scanned paths keep their verdicts and get no call, every other record is removed or reported as failed, and the loop goes on whatever a removal does; only the listing can raise. |
| `IndexService.IndexService.SyncSource` | src/knowledge_agents/application/services/index_service.py:126-137 | One source is reused, replaced or kept, with exactly the calls its verdict requires; only its own path changes, and a current source is always reused; an exception comes from its record being read or validated only, and leaves the stores as they were. |
| `IndexService.IndexService.RemoveRecord` | src/knowledge_agents/application/services/index_service.py:143-152 | A removal touches its own path only, and when it succeeds neither the record nor any of its points is left. |
| `IndexService.IndexService.IsUnchanged` | src/knowledge_agents/application/services/index_service.py:192-207 | A source is unchanged exactly when its record is indexed, matches content hash, fingerprint and collection, and all its points are stored. |
| `IndexService.IndexService.ReplaceGeneration` | src/knowledge_agents/application/services/index_service.py:209-289 | A generation swap writes, validates, records and cleans up, in this order and up to the first failure, which deletes what it wrote; it then leaves the record as it was and a complete record complete. A swap that succeeds leaves the new record with all its points, and without a failed delete no new orphan. |
| `IndexService.IndexService.WriteGeneration` | src/knowledge_agents/application/services/index_service.py:251-269 | The try block of the swap: it ends at the first of upsert, validation and record that fails, and returns only if all points are stored and the record is written. |
| `IndexService.IndexService.ForgetAll` | src/knowledge_agents/application/services/index_service.py:169-170 | The records are listed and deleted one by one up to the first failure; without an exception none is left. |
| `IndexService.DamageIsReported` | src/knowledge_agents/application/services/index_service.py:108-162 | After a sync that returns, a record with a missing point already had that damage or its path is among the failed paths. |
| `IndexService.ScannedNotesStayComplete` | src/knowledge_agents/application/services/index_service.py:126-137 | A record whose points were all present before a sync still has all its points afterwards, whether it was reused, replaced or its replacement failed. |
| `IndexService.NoOrphansFromNothing` | src/knowledge_agents/application/services/index_service.py:164-177 | After syncing into empty stores, a point is stored if and only if a record names it. |
| `IndexService.AllReused` | src/knowledge_agents/application/services/index_service.py:126-162 | When every verdict is an untouched path and nothing failed, the result lists all scanned paths as unchanged and nothing else. |
| `IndexState.GenerationsAreDisjoint` | src/knowledge_agents/application/services/index_service.py:214-233 | The point ids of a new generation are none of those of the record it replaces unless the record already describes the same content, so the cleanup of a failed swap cannot hit old points. |
| `IndexState.OnePointPerChunk` | src/knowledge_agents/application/services/index_service.py:226-250 | A new generation has as many points as the text has chunks, numbered below that. |
| `IndexState.OwnedMeansSomeRecord` | src/knowledge_agents/application/services/index_service.py:228-233 | A point is named by some record exactly when it is named by the record of its own path. |
| `PointIds.PointKeyIsInjective` | src/knowledge_agents/application/services/index_service.py:329-330 | The key text of a point determines collection, document id, generation and ordinal, although document ids may contain colons. |
| `Markdown.MarkdownBlocks` | src/knowledge_agents/adapters/chunker.py:109-177 | The parser ends, and its blocks are the reading of the document under the block grammar: each block is the longest one opening at its first line, and only blank lines lie outside blocks. |
| `Patterns.HeadingIff` | src/knowledge_agents/adapters/chunker.py:8 | A line is a heading of level n exactly when it is in the language of the heading expression with n signs. |
| `Patterns.HeadingTextIs` | src/knowledge_agents/adapters/chunker.py:122-124 | The heading text is what follows the signs, without the whitespace around it. |
| `Patterns.ListItemIff` | src/knowledge_agents/adapters/chunker.py:9 | A line is a list item exactly when a prefix of it is in the language of the list expression. |
| `Patterns.FenceIff` | src/knowledge_agents/adapters/chunker.py:10 | A line opens a fence exactly when it starts as one of the two fence expressions, and the closing marker is the one it opened with. |
| `Patterns.TableSeparatorIff` | src/knowledge_agents/adapters/chunker.py:11 | A line is a delimiter row exactly when it is in the language of the table expression, with its optional outer bars and at least two cells. |
| `Markdown.ParseIsUnique` | src/knowledge_agents/adapters/chunker.py:109-177 | A document has one reading only under that grammar, so the parser is determined by it. |
| `Markdown.EveryLineOnce` | src/knowledge_agents/adapters/chunker.py:114-177 | Every non-blank line lies in exactly one block. |
| `Markdown.BlocksAreOrdered` | src/knowledge_agents/adapters/chunker.py:114-177 | The line ranges of the blocks are disjoint and increasing. |
| `Markdown.TokensOfBlocks` | src/knowledge_agents/adapters/chunker.py:109-177 | The blocks carry the tokens of the document, each once and in order. |
| `Outline.PathDepthOfBlock` | src/knowledge_agents/adapters/chunker.py:120-125 | A heading path ends in the last heading before the block and is never longer than that heading's level. |
| `Outline.PathIsOpenChainIff` | src/knowledge_agents/adapters/chunker.py:122-124 | The path is the chain of enclosing headings at every point of the document if and only if every heading that is no deeper than the one before it finds an open section of every level above its own. The condition speaks of the heading levels only. |
| `Outline.CutAgreesIff` | src/knowledge_agents/adapters/chunker.py:122-124 | Cutting the path by position agrees with closing headings by level exactly when the heading is filed under a shallower one. |
| `Outline.SkippedLevelIsMisfiled` | src/knowledge_agents/adapters/chunker.py:122-124 | The counterexamples: any second heading below level 1 but no deeper than the first is filed under it, though the first does not enclose it. |
| `Outline.PathsEncloseBlocks` | src/knowledge_agents/adapters/chunker.py:120-125 | In a document whose heading levels meet that condition, every block carries exactly the headings whose sections enclose it. |
| `Chunker.SplitOversizedBlocks` | src/knowledge_agents/adapters/chunker.py:180-197 | The split of the blocks, in order, each cut into runs of at most the maximum number of tokens. |
| `Chunker.SplittingKeepsTokens` | src/knowledge_agents/adapters/chunker.py:180-197 | Splitting loses, repeats and reorders no token, and every piece fits the maximum. |
| `Chunker.SplittingKeepsPaths` | src/knowledge_agents/adapters/chunker.py:180-197 | Splitting keeps the rule that a block that is no heading has the heading path of the block before it. |
| `Chunker.FittingBlocksStayWhole` | src/knowledge_agents/adapters/chunker.py:184-186 | A block within the maximum is one of the pieces, unchanged. |
| `Chunker.PiecesAreFull` | src/knowledge_agents/adapters/chunker.py:187-196 | The pieces of a block beyond the maximum are consecutive runs of its tokens, each but the last of exactly the maximum length. |
| `Chunker.PackGroups` | src/knowledge_agents/adapters/chunker.py:65-80 | The groups are non-empty, give back the pieces in order, and each takes in as much as heading and token limits allow. |
| `Chunker.PackingIsUnique` | src/knowledge_agents/adapters/chunker.py:65-80 | The packing rule leaves no choice: any grouping that follows it is the one computed. |
| `Chunker.GroupsEndLate` | src/knowledge_agents/adapters/chunker.py:70-77 | A group ends only before a heading or where the next block would pass the target. |
| `Chunker.ChunkBody` | src/knowledge_agents/adapters/chunker.py:85-91 | A chunk's text is the last min(overlap, previous length, maximum minus body) tokens of the chunk before it, joined by blanks, and a blank line (nothing for the first chunk or without overlap), followed by the stripped contents of the group's non-blank blocks in order, one blank line between neighbours and nothing else. |
| `Chunker.ChunkDocument` | src/knowledge_agents/adapters/chunker.py:54-106 | The chunks of a document are those of the packing of the split of its blocks, each with the text described for a chunk body, ordinal, heading path, locator and true token count within the maximum. |
| `Chunker.FittingBlockIsVerbatim` | src/knowledge_agents/adapters/chunker.py:54-106 | The stripped content of every non-blank block within the maximum occurs verbatim, line breaks included, in a chunk whose group holds the block. |
| `Chunker.OverlapIsTail` | src/knowledge_agents/adapters/chunker.py:86-91 | The repeated tokens are the end of the chunk before, as many as the overlap, that chunk and the room under the maximum allow. |
| `Chunker.NothingLost` | src/knowledge_agents/adapters/chunker.py:54-106 | Without the overlaps, the chunks give back exactly the token sequence of the document. |
| `Chunker.ChunksFit` | src/knowledge_agents/adapters/chunker.py:71-73 | No chunk exceeds the maximum, and a body of two or more blocks is within the target before the overlap. |
| `Chunker.ChunkSharesPath` | src/knowledge_agents/adapters/chunker.py:98 | All blocks of a chunk have the chunk's heading path. |
| `Text.TokensOfLines` | src/knowledge_agents/adapters/chunker.py:110 | Splitting a text into lines loses no token. |
| `Text.TokensOfJoinedWords` | src/knowledge_agents/adapters/chunker.py:190 | Words joined with blanks are found again as the tokens. |
| `IsoTime.TextOrderIsTimeOrder` | src/knowledge_agents/adapters/sqlite_run_store.py:154-188 | The text order of two stored UTC timestamps is their order in time, although microseconds are dropped when they are zero. |
| `IsoTime.TextAtMostIsTimeAtMost` | src/knowledge_agents/adapters/sqlite_run_store.py:173 | The same for the non-strict comparison of the acquire statement. |
| `IsoTime.LaterIsThatMuchLater` | src/knowledge_agents/adapters/sqlite_run_store.py:162-163 | The expiry is the clock reading plus the time to live, across minutes, days, months and leap years. |
| `LeaseStore.SqliteRunStore.CreateOrGetRun` | src/knowledge_agents/adapters/sqlite_run_store.py:89-146 | A new key binds a new row with status received, stage received, no owner, no expiry and no terminal time, every other row unchanged; a bound key with the same request hash returns its run as it is; another request hash under the key and a run id taken by another key are conflicts that change nothing. |
| `LeaseStore.CreatedRunIsNew` | src/knowledge_agents/adapters/sqlite_run_store.py:89-146 | A run just made can be taken by any owner. |
| `LeaseStore.SqliteRunStore.AcquireLease` | src/knowledge_agents/adapters/sqlite_run_store.py:154-188 | Comparing texts, the statement grants the lease exactly when no other owner's lease is still running in time, then lasts the whole time to live, and marks the run running whatever its status. |
| `LeaseStore.SqliteRunStore.RenewLease` | src/knowledge_agents/adapters/sqlite_run_store.py:190-216 | Comparing texts, the lease is extended exactly when the caller owns it and it has not run out in time. |
| `LeaseStore.SqliteRunStore.ReleaseLease` | src/knowledge_agents/adapters/sqlite_run_store.py:218-229 | Only the owner's release clears owner and expiry; status, stage, terminal time, key and hash of the row and all other rows stay. |
| `LeaseStore.ReleaseClearsOnlyTheLease` | src/knowledge_agents/adapters/sqlite_run_store.py:218-229 | A release leaves everything but owner and expiry of its row, and every other row, as it was. |
| `LeaseStore.SqliteRunStore.UpdateStage` | src/knowledge_agents/adapters/sqlite_run_store.py:231-257 | Stage, status and terminal time are written between two reads, with any statements of other connections in between; without a status the one read first is written back; an unknown run is an error, and a run found by the first read is found by the second. |
| `LeaseStore.StageChangesOnlyStage` | src/knowledge_agents/adapters/sqlite_run_store.py:231-257 | A stage update writes stage, status and terminal time of its row and leaves its lease, key and hash and every other row. |
| `LeaseStore.StageUpdateUndoesStatus` | src/knowledge_agents/adapters/sqlite_run_store.py:238-253 | A stage update without a status undoes every change of the status that others made since its first read. |
| `LeaseStore.RenewableIffExclusive` | src/knowledge_agents/adapters/sqlite_run_store.py:165-213 | An owner can renew its lease exactly as long as no other owner can take the run. |
| `LeaseStore.ScriptPreserves` | src/knowledge_agents/adapters/sqlite_run_store.py:89-257 | No sequence of statements rebinds an idempotency key, changes a request hash or drops a run, and the unique index stays consistent. |
| `LeaseStore.LeaseSurvivesScript` | src/knowledge_agents/adapters/sqlite_run_store.py:154-229 | A lease stays in place through any statements made before its end, other than its owner's release. |
| `LeaseStore.NoOtherOwnerBeforeExpiry` | src/knowledge_agents/adapters/sqlite_run_store.py:154-229 | After any such statements no other owner can take or renew the run before the lease ends. |
| `WorkerProtocol.MutualExclusion` | src/knowledge_agents/entrypoints/worker.py:170-221 | With distinct worker ids, in every reachable state of any number of workers, two workers executing one run are never both within their lease time. |
| `WorkerProtocol.PunctualWorkersExclude` | src/knowledge_agents/entrypoints/worker.py:82-92 | When every renewal, or the cancellation after a failed one, is done within heartbeat plus a slack that fits below the time to live, no two workers ever execute one run at once. |
| `WorkerProtocol.FirstDeliveryIsHandled` | src/knowledge_agents/entrypoints/worker.py:135-230 | From an empty table there is a run of the protocol in which the first delivery of a message comes to its execution, and then to its acknowledgement. |
| `WorkerProtocol.WorldGoesOn` | src/knowledge_agents/entrypoints/worker.py:115-128 | Time can pass by any amount, a worker can be given up at any point and start again, and other components can make runs and write stages, whatever the workers do. |
| `WorkerProtocol.AnyCallCanFail` | src/knowledge_agents/entrypoints/worker.py:135-230 | Every call a worker can come to make can fail without having taken effect. |
| `WorkerProtocol.LostAnswersCount` | src/knowledge_agents/entrypoints/worker.py:170-230 | A lease can also be taken, extended or given back by a call that then raised. |
| `WorkerProtocol.TrueAnswersArePossible` | src/knowledge_agents/entrypoints/worker.py:135-230 | A worker can be told the run bound to its message, whether its lease is granted or renewed, which is so exactly when the row says so, and the status of the run. |
| `WorkerProtocol.BothExecute` | src/knowledge_agents/entrypoints/worker.py:200-221 | The premises are needed: with a shared worker id at once, and with distinct ids as soon as the first worker is past its lease time, a run of the protocol leads to both workers executing the same run. |
| `WorkerProtocol.AcknowledgedOnlyAfterTerminalRead` | src/knowledge_agents/entrypoints/worker.py:148-161 | Over all runs of all workers, every acknowledgement follows a read by that worker of a terminal status of the run bound to the message's key with the same request hash. |
| `WorkerProtocol.AcknowledgedRunStartsAgain` | src/knowledge_agents/adapters/sqlite_run_store.py:165-186 | A terminal status does not absorb: for any terminal status there is a run of the protocol in which an acknowledged run is taken and running again, with its terminal time still in the row. |
| `WorkerProtocol.OwnStepKeepsLease` | src/knowledge_agents/entrypoints/worker.py:232-250 | A worker's own step keeps the invariant: a granted or renewed lease lasts its full time from the clock reading. |
| `WorkerProtocol.OthersKeepLease` | src/knowledge_agents/adapters/sqlite_run_store.py:165-229 | No step of another worker, of other components or of time takes away a lease that has not run out. |
| `WorkerProtocol.RunKeepsInv` | src/knowledge_agents/entrypoints/worker.py:135-182 | In every reachable state messages stay bound to their runs and every logged read agrees with the keys and hashes still stored. |
| `Delivery.AtMostOneSettlement` | src/knowledge_agents/entrypoints/worker.py:135-261 | Along every sequence of calls a worker can make for a message, it acknowledges or releases at most once, as the reported disposition says, and gives a lease it took back exactly once. |
| `Delivery.TracesAreDeliveries` | src/knowledge_agents/entrypoints/worker.py:135-261 | The sequences of calls the automaton accepts with a disposition are exactly those of a delivery: parse, look up, lease, execute beside heartbeats, read the status, release and acknowledge, each at its place with the answers that lead on. |
| `Worker.Worker.Process` | src/knowledge_agents/entrypoints/worker.py:135-182 | Whatever the ports answer, the calls made, all logged for this message, follow the delivery automaton to the reported disposition, or to an escaping exception. |
| `Worker.Worker.ExecuteWithHeartbeat` | src/knowledge_agents/entrypoints/worker.py:184-230 | Execution beside any number of heartbeats: a lost heartbeat stops the execution and settles nothing, a failed execution releases the message, a finished one is acknowledged only on a terminal status. |
| `Worker.Worker.Serve` | src/knowledge_agents/entrypoints/worker.py:119-128 | A stop splits a batch into a processed prefix and a released suffix; an exception ends it after the message that raised. The log of calls, each naming its message, grows by exactly the calls of the handled messages in order: those of the delivery automaton for a processed message, one release for a message given back, none for a message after a raising one. |
| `Worker.Worker.Run` | src/knowledge_agents/entrypoints/worker.py:115-128 | The log of calls grows by exactly the calls of the batches served, in order; every batch but the last is processed completely, and the last is split by a stop or ended by an exception; without either, all polls are served completely; a worker already stopped serves none. |
| `Worker.TraceNamesHandled` | src/knowledge_agents/entrypoints/worker.py:119-128 | Every call logged for a batch names one of its handled messages. |
| `Budgets.ContextBudgetManager.EnsureCanCall` | src/knowledge_agents/domain/budgets.py:154-191 | A call is admitted exactly when it breaks none of the seven limits; otherwise the first broken one, in the order of the checks, is raised. |
| `Budgets.ContextBudgetManager.Status` | src/knowledge_agents/domain/budgets.py:115-152 | The status reports exactly the exceeded limits, and what is left of each total, never below zero. |
| `Budgets.OnlyTheLastCallOverruns` | src/knowledge_agents/domain/budgets.py:154-195 | After any gated calls with arbitrary usage, the call count is within its cap and the ledger without its last entry is within all five totals. |
| `Budgets.HonestReservationsStayWithin` | src/knowledge_agents/domain/budgets.py:154-195 | If no call uses more tokens than it reserved, the whole ledger is within the token totals. |
| `Budgets.ContextBudgetManager.Spend` | src/knowledge_agents/domain/budgets.py:154-195 | A call is recorded exactly when it was admitted, and what the ledger held before an admitted call is within all totals. |
| `Budgets.ContextBudgetManager.RecordUsage` | src/knowledge_agents/domain/budgets.py:193-195 | The usage is appended, and the status reports exactly the limits exceeded then. |
| `Budgets.NothingExceededIff` | src/knowledge_agents/domain/budgets.py:115-152 | No limit is exceeded exactly when the sums are within the totals and every single call is within the limits of a call. |
| `Budgets.WithinIffLastCallFits` | src/knowledge_agents/domain/budgets.py:154-195 | After gated calls, the ledger is within each of its totals if and only if the last call used at most what was left of that total before it. |
| `Budgets.AgentIsAdmittedIff` | src/knowledge_agents/application/graph/nodes.py:110-122 | When an agent node passes its gate: a call is left, the estimated input and the whole output limit fit, and cost and duration are not overspent. |
| `Budgets.LastCallCanOverrun` | src/knowledge_agents/application/graph/nodes.py:116-122 | Agent nodes reserve no cost and no duration: wherever the gate admits an agent call, its usage can take the ledger past both limits by any amount. |
| `Budgets.EstimatedInput` | src/knowledge_agents/application/graph/nodes.py:112-115 | The estimate is the padded quarter of the prompt length rounded down, and at least one. |
| `Routing.FingerprintsEqualIff` | src/knowledge_agents/application/graph/routing.py:90-105 | Two reviews have equal issue fingerprints exactly when the same notes are blocked and each has the same issues and required changes as multisets; where a note is reviewed twice the later review counts. |
| `Routing.ReviseIff` | src/knowledge_agents/application/graph/routing.py:30-62 | With or without an earlier review: a revision is decided exactly when a cycle is left, something is blocked, the recommendation and every status are ready or partial, and the complaints differ from those of the review that sent the drafts back before, if one did; it takes one cycle and remembers the complaints. |
| `Routing.OutcomeIff` | src/knowledge_agents/application/graph/routing.py:30-43 | A review that is not sent back rejects the run exactly if anything is rejected, and completes it exactly if nothing is rejected, lacks evidence or is blocked; complaints are remembered only of a review that blocks and neither rejects nor misses anything. |
| `Curation.ApprovalsSurviveIff` | src/knowledge_agents/application/agents/curation.py:110-155 | Approved hashes survive every valid revision that is accepted if and only if no approved note is blocked. |
| `Curation.ApprovalIsLost` | src/knowledge_agents/application/agents/curation.py:117-132 | For any package with a note both approved and blocked there is a valid, accepted revision that replaces the approved draft. |
| `Curation.ReplacedNote` | src/knowledge_agents/application/agents/curation.py:132 | A note in the candidate gets the candidate's draft, every other note keeps its own. |
| `Curation.CombineKeeps` | src/knowledge_agents/application/agents/curation.py:132-155 | The combined package has the note ids of the previous one in the same order, and a decision for every draft. |
| `Curation.CombineFreezes` | src/knowledge_agents/application/agents/curation.py:121-132 | With no approved note blocked, every approved hash is the hash of that note in the combined package. |
| `Curation.CombineAcceptedIff` | src/knowledge_agents/application/agents/curation.py:117-141 | A revision is accepted exactly when it covers the blocked notes and no other, every approved note has a draft with the approved hash, and every blocked and every previous note has its decision. |
| `Curation.CombineRefusalIs` | src/knowledge_agents/application/agents/curation.py:117-136 | Which error refuses a revision: the scope, or else an approved note without its hash, or else a blocked note it does not decide, or else a previous note never decided. |
| `Curation.CombinedNote` | src/knowledge_agents/application/agents/curation.py:132-139 | Position by position, the combined package has the candidate's draft of a blocked note and the previous one of any other, and the candidate's last decision of the note, blocked or not, or else the previous one; the retrieval references are the candidate's, if any. |
| `Curation.OtherDecisionsCanChange` | src/knowledge_agents/application/agents/curation.py:133-136 | For any note that is not blocked, approved or not, and any action there is a valid, accepted revision that keeps its draft and decides that action for it. |
| `ReviewGraph.AddApprovals` | src/knowledge_agents/application/graph/nodes.py:240-250 | The two loops refuse a review with a hash that is not the draft's, and otherwise add its approvals to those before. |
| `ReviewGraph.NoMismatchIffCovered` | src/knowledge_agents/application/agents/validation.py:47-52 | A review passes the hash check exactly when every reviewed note has a draft with the reviewed hash. |
| `ReviewGraph.ReviewAcceptedIff` | src/knowledge_agents/application/agents/validation.py:24-52 | A review is accepted exactly when it belongs to the run, covers every draft in the first round, or every blocked note later, and no other note, and reviews each under its draft's hash. |
| `RunGraph.RunGraph.RunCurationAgent` | src/knowledge_agents/application/agents/curation.py:28-107 | The node with its gate, checks and write-once artifact makes the step of the specification, and a node that stops updates nothing. |
| `RunGraph.RunGraph.RunValidationAgent` | src/knowledge_agents/application/agents/validation.py:18-73 | The same for the review: exactly the blocked notes, or all in the first round, with the hashes of the drafts. |
| `RunGraph.RunGraph.RouteReviewed` | src/knowledge_agents/application/graph/nodes.py:236-286 | The same for routing: approvals, decision, revision request and its artifact. |
| `RunGraph.RunGraph.FindMismatch` | src/knowledge_agents/application/agents/validation.py:50-52 | The first review whose hash is not the draft's decides the error. |
| `ReviewRuns.RunsAreShort` | src/knowledge_agents/application/graph/builder.py:89-102 | Every run visits at most 13 + 4m nodes and makes at most 3 + 2m agent calls, those included whose answer is refused, and has as many call records as usage entries, so the strict zip over them is safe. |
| `ReviewRuns.RunsEnd` | src/knowledge_agents/application/graph/builder.py:89-102 | Whatever the agents answer, a run is over after 13 + 4m nodes. |
| `ReviewReach.RevisionsAreReached` | src/knowledge_agents/application/graph/builder.py:89-102 | For every configuration and every number k of revisions up to the allowed one, if the budget has room for 1 + 2k calls, there is a run, with reviews that keep to their contract, that comes to the curation agent with k revisions behind it. |
| `ReviewReach.LongestRun` | src/knowledge_agents/application/graph/builder.py:89-102 | The bounds are attained: with room for 3 + 2m calls there is a run that takes all m cycles, visits 13 + 4m nodes and makes 3 + 2m calls. |
| `ReviewRuns.ArtifactFilesDiffer` | src/knowledge_agents/application/graph/nodes.py:278-283 | In every run the artifact file names are pairwise distinct, so the write-once store never refuses one. |
| `ReviewRuns.ArtifactsAreComplete` | src/knowledge_agents/application/graph/nodes.py:236-354 | A run that ended has written one package and one review for each of its rounds, one request for each of its revisions, the manifest and each of the other artifacts, and nothing else; before, exactly those of the nodes visited. |
| `ReviewRuns.FileNameIsInjective` | src/knowledge_agents/adapters/filesystem_artifacts.py:34-44 | Different artifacts have different file names, whatever the revision numbers. |
| `ReviewSafety.ApprovalsStayFrozen` | src/knowledge_agents/application/graph/nodes.py:226-286 | In every run whose reviews never both approve and block a note, each approved hash is the hash of that note in the current package, and the run cannot stop on a frozen draft or on a missing decision, review or draft. |
| `ReviewSafety.LaterFollows` | src/knowledge_agents/application/agents/curation.py:110-155 | However a run goes on, approvals keep their hashes, the package keeps its note ids in order, and the blocked sets of revisions only shrink. |
| `ReviewSafety.RouteKeeps` | src/knowledge_agents/application/graph/nodes.py:236-286 | A checked review routes without a lookup error and blocks, in a revision, only notes blocked before. |
| `ReviewSafety.RouteRecords` | src/knowledge_agents/application/graph/nodes.py:236-286 | Routing a checked review adds its approvals, takes over its blocked notes and either asks for a revision of exactly those, with their issues and the hashes of their drafts, or ends the loop with an outcome. |
| `ReviewSafety.AnswerIsRecordedIff` | src/knowledge_agents/application/graph/nodes.py:110-122 | An agent's answer is recorded exactly when it passes the gate and is within its scope; then its usage and its call are appended, and no approval, blocked note, fingerprint, warning or outcome changes. |
| `ReviewSafety.AnswerIsStored` | src/knowledge_agents/application/agents/curation.py:28-107 | A first package is stored as it is, a revision combined with the package it revises, a review as it is, each with its artifact. |
| `ReviewSafety.StopIs` | src/knowledge_agents/application/agents/curation.py:71-92 | What a run stops with at an agent, and whether its call counts: the limits before anything is sent; then an exception of the call, an answer for another run, a revision that cannot be combined, a review of other notes. |
| `ReviewSafety.OutcomeIsTheVerdict` | src/knowledge_agents/application/graph/nodes.py:299-354 | A finished run's outcome is decided by its last review; failed index or telemetry writes only turn completed into completed with warnings. |
| `ReviewSafety.WarningsAreFailures` | src/knowledge_agents/application/graph/nodes.py:299-354 | In the last two nodes of every run a failed secondary write, and nothing else, adds its warning and takes completed to completed with warnings, and the run goes on to its end. |
| `ReviewSafety.RunsStayInBudget` | src/knowledge_agents/application/graph/nodes.py:110-122 | In every run the calls made stay within the call cap, those included whose answer is refused, and everything spent before the last recorded call is within all totals. |
| `ReviewSafety.RunCanOverrunCostAndDuration` | src/knowledge_agents/application/graph/nodes.py:110-122 | For every budget whose first agent call is admitted there is a run that goes on to the next node past the cost limit and the duration limit by any amount. |
| `ReviewSafety.CallCapNeverBinds` | src/knowledge_agents/domain/budgets.py:22 | A cap of 3 + 2m calls never refuses one; the default budget is exactly that for two cycles. |
| `ReviewSafety.RevisionsMakeProgress` | src/knowledge_agents/application/graph/routing.py:44-62 | In every run, a review sends the drafts back again only if its complaints differ from those that sent them back before. |
| `VaultNotes.RenderThenRead` | src/knowledge_agents/adapters/vault_writer.py:36-63 | Rendering then scanning gives back note id, status, content hash and the title as a single line, whatever title and sections contain. |
| `VaultBodies.NoteIsLaidOut` | src/knowledge_agents/adapters/vault_writer.py:36-63 | A rendered note is the twelve lines of its head, stated one by one, a blank line, and for each section in order and for nothing else its heading as a single line behind two signs, a blank line and its body without trailing whitespace, with one blank line between sections and a final line feed. |
| `VaultBodies.CleanTextIsUnique` | src/knowledge_agents/adapters/vault_writer.py:60-63 | The single line and the trimmed body are the only texts with the same words singly spaced, and with nothing but whitespace cut off the end. |
| `VaultBodies.NotesAreReadable` | src/knowledge_agents/adapters/vault_writer.py:36-63 | Notes with equal texts agree in run, note id, status, hash, action, eligibility, title and in the list of single-line headings and trimmed bodies, if no line of a body but its first starts like a heading. |
| `VaultBodies.HeadingInBodyIsAmbiguous` | src/knowledge_agents/adapters/vault_writer.py:59-62 | Without that condition it fails: a body that holds what reads as a next section renders like two sections. |
| `VaultNotes.ParseFrontmatter` | src/knowledge_agents/adapters/vault_scanner.py:152-165 | The scanner's loop collects the fields up to the closing rule, later ones overwriting earlier ones. |
| `VaultReading.FieldIff` | src/knowledge_agents/adapters/vault_scanner.py:12 | A line is read as a field exactly when it is a key of letters, digits, underscores and hyphens, a colon, and the value with any whitespace around it. |
| `VaultReading.CollectTakesLast` | src/knowledge_agents/adapters/vault_scanner.py:157-165 | Of several fields with one key the last one counts, unquoted. |
| `VaultReading.CollectHas` | src/knowledge_agents/adapters/vault_scanner.py:157-165 | A key is found exactly when some line of the frontmatter is a field with it. |
| `VaultReading.UnquoteIs` | src/knowledge_agents/adapters/vault_scanner.py:168-172 | A value enclosed in quotes of one kind is what they enclose; any other value is kept without outer whitespace. |
| `VaultReading.TitleIff` | src/knowledge_agents/adapters/vault_scanner.py:138-141 | The title is the stripped rest of the first line that starts one, if any does. |
| `VaultReading.TranslateIs` | src/knowledge_agents/adapters/vault_scanner.py:135 | Reading a file as text turns every carriage return, alone or with a line feed, into one line feed and keeps the rest. |
| `VaultNotes.ReadHead` | src/knowledge_agents/adapters/vault_scanner.py:134-149 | Whatever follows the head of a rendered note, the scan stops the frontmatter at its closing rule and takes the first title line. |
| `VaultNotes.QuotedPlain` | src/knowledge_agents/adapters/vault_scanner.py:168-172 | A quoted identifier or digest is unquoted to itself. |
| `VaultNotes.SingleLineIsTight` | src/knowledge_agents/adapters/vault_writer.py:227-228 | A title made a single line has no line break and is stable under stripping and under doing it again. |
| `VaultWriter.VaultWriter.Persist` | src/knowledge_agents/adapters/vault_writer.py:93-160 | A refused persist writes nothing; otherwise files are only added, in the order of their paths: a stop leaves exactly as many new files as it says and none missing before one that was added, and without a stop all documents are there in the end. |
| `VaultWriter.VaultWriter.PersistAgain` | src/knowledge_agents/adapters/vault_writer.py:93-219 | After a persist stopped anywhere, the same persist completes it: all documents are there and nothing else was added or changed. |
| `VaultWriter.VaultWriter.PlanDrafts` | src/knowledge_agents/adapters/vault_writer.py:111-134 | The loop over the drafts in note-id order: skipped ones, kept ones with their texts, and the first error. |
| `VaultWriter.VaultWriter.Preflight` | src/knowledge_agents/adapters/vault_writer.py:146-148 | The check refuses exactly when an existing target holds another text. |
| `VaultWriter.VaultWriter.WriteAll` | src/knowledge_agents/adapters/vault_writer.py:149-150 | Writing in path order adds the missing documents only, all of them or, when stopped, the given number, and none is missing before one that was added. |
| `VaultWriter.DocumentsArePreservedNotes` | src/knowledge_agents/adapters/vault_writer.py:111-144 | A persist that is not refused wants exactly the notes of the drafts that were reviewed, are not rejected and are not to be discarded, each rendered at its own path where a scan finds it under its id, and the review summary and the manifest. |
| `VaultWriter.PlannedIff` | src/knowledge_agents/adapters/vault_writer.py:99-134 | A persist is refused before any target is looked at exactly when the run ids differ or are unsafe, or a draft has an unsafe id, a review of another hash, or, if it is to be written, a note id of another scanned file or a wrong hash of its own. |
| `VaultWriter.RefusalIs` | src/knowledge_agents/adapters/vault_writer.py:99-134 | Why a persist is refused: the run ids differ, or else they are no safe file name, or else it is the first failing check on the first draft, in the order of the note ids, that is not acceptable. |
| `VaultWriter.PlanSortsDrafts` | src/knowledge_agents/adapters/vault_writer.py:111-134 | The kept ids are those of the drafts that were reviewed, are not rejected and are not to be discarded; the skipped ids are all others. |
| `VaultWriter.PersistsKeepTheVault` | src/knowledge_agents/adapters/vault_writer.py:93-219 | Over any sequence of persists, each refused, stopped after some writes or completed, no note id is at two scanned paths if none was at the start, and no file of any earlier state changes. |
| `VaultWriter.RerunCompletes` | src/knowledge_agents/adapters/vault_writer.py:162-194 | After some of the documents were added, the same inputs give the same documents and no conflict, so a rerun writes exactly the missing files. |
| `VaultWriter.AddingKeepsNotesUnique` | src/knowledge_agents/adapters/vault_writer.py:162-170 | Adding any part of a persist's documents keeps every note id at one scanned path. |
| `VaultWriter.DocumentNotes` | src/knowledge_agents/adapters/vault_writer.py:126-144 | A document declares a note id only at that note's own path, and only if no other scanned file had it. |
| `VaultWriter.SummaryHasNoNoteId` | src/knowledge_agents/adapters/vault_writer.py:231-259 | The review summary declares no note id, whatever it lists. |
| `VaultWriter.SummaryIsLaidOut` | src/knowledge_agents/adapters/vault_writer.py:231-259 | The summary names run and recommendation, counts the kept notes, lists the skipped ones and has one row with status and eligibility for each kept one, in order. |
| `Repairs.RepairService.Run` | src/knowledge_agents/application/services/repair_service.py:50-100 | Every pending repair of the run is visited once, and the lists say what its row says: not due exactly before its time, and then unchanged; completed, failed with the last attempt counted, or pending with one attempt more and the time of the next; only an exception of the store ends the run early. |
| `Repairs.RepairService.AttemptTask` | src/knowledge_agents/application/services/repair_service.py:62-91 | One attempt: the new count comes from the row as it was listed, so a row put back by the handler is overwritten. |
| `Repairs.RepairService.HandlerCallsAreBounded` | src/knowledge_agents/application/services/repair_service.py:50-100 | Over any runs of the service over the whole table, a repair enqueued with no attempts gets at most the allowed number of handler calls until somebody else enqueues it, even when its handler keeps putting it back with none, as long as the service's own writes for it are stored; the row counts the calls. |
| `Repairs.AttemptsAreBounded` | src/knowledge_agents/application/services/repair_service.py:70-88 | The same for the attempts of one row, with the exact count in a pending and in a failed row. |
| `Repairs.AlwaysFailingIsGivenUp` | src/knowledge_agents/application/services/repair_service.py:71-78 | A repair that always fails is given up after exactly the allowed number of attempts. |
| `Repairs.LostWritesRetryForever` | src/knowledge_agents/application/services/repair_service.py:71-88 | Without that premise the bound fails: with the service's own writes lost, any number of attempts can be made. |
| `Repairs.DelayBounds` | src/knowledge_agents/application/services/repair_service.py:102-106 | The n-th delay lies between b times 2 to the n-1 and a quarter more. |
| `Repairs.JitterStretches` | src/knowledge_agents/application/services/repair_service.py:102-106 | More jitter is a longer delay, from nothing added to a quarter. |
| `Repairs.DelaysIncrease` | src/knowledge_agents/application/services/repair_service.py:102-106 | Later delays are strictly longer, whatever the jitter. |
| `Repairs.TotalDelayBounds` | src/knowledge_agents/application/services/repair_service.py:102-106 | All delays together lie between b(2^n - 1) and a quarter more, for n retries. |

## Left out

- Markdown.MarkdownBlocks: digits in list markers are ASCII digits only, while `\d` also matches other decimal digits; matching is membership in the language of the expression (`Patterns`), not the engine's search.
- Chunker.ChunkDocument: the sha256 of a chunk's text is left out, being a function of the text.
- IndexService.IndexService.ReplaceGeneration: the chunker is any function from texts to numbers of chunks, and the metadata of points is left out; an embedding failure is a failed upsert without effect.
- IndexPorts.RecordStore.EnqueueRepair: an index repair is the run it belongs to; its attempts and times are modelled in `Repairs` only.
- LeaseStore.SqliteRunStore.CreateOrGetRun: the row is read back in the same step; in `WorkerProtocol` the insertion and the read are separate steps.
- LeaseStore.SqliteRunStore.UpdateStage: the columns created_at and updated_at are left out.
- WorkerProtocol.MutualExclusion: a renewal already handed to SQLite when its heartbeat is cancelled is not committed after the release of the lease, and a worker's clock does not run backwards between two renewals.
- Worker.Worker.Run: the number of polls is bounded by a parameter, so that the loop ends; cancelling the worker itself, timing and the interleaving of heartbeat and execution inside one call are left out.
- Worker.Worker.Process: parsing the envelope is one answer, valid or not; JSON, the size limit and duplicate keys are left out.
- ReviewSafety.ApprovalsStayFrozen: runs are not interrupted and resumed from a checkpoint; a node that is run again after a crash may meet its own artifact with other content.
- RunGraph.RunGraph.RunCurationAgent: prompts, response ids, models and the package hash are left out; a prompt is its length.
- RunGraph.RunGraph.RunValidationAgent: the evidence sent along is left out.
- RunGraph.RunGraph.RouteReviewed: the remaining budget written into a revision request is left out.
- Routing.FingerprintsEqualIff: the canonical JSON text and its sha256 are taken to be injective.
- VaultNotes.RenderThenRead: the file hash of an entry is left out, being a function of the text; texts are decodable.
- VaultWriter.VaultWriter.Persist: directories, symbolic links and temporary files are left out; a write is one step, as `os.replace` makes it; file names are compared with their case.
- Repairs.RepairService.Run: repairs are visited in any order, not by time and id; a handler puts back only its own repair, which is what the index synchronisation of the same run does.
- Network and process adapters (NotebookLM, web articles, SQS, OpenAI, Langfuse, Qdrant): ports that may fail, nothing more.
- Path, link and address checks: they depend on the operating system and on libraries.
- `cli.py`, `config.py`, the doctor and evaluation services, the Lambda handler: configuration and single-branch checks.
- The acquisition part of the graph: its nodes are steps that work or fail, and its agent call is charged like the others.
- Telemetry events and the run manifest: only whether they are written, and that call records and usage entries have the same length.
- Index status, metric counts, embedding deduplication and migrations: easy, and nothing else depends on them.
