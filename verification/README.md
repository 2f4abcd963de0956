# Verified model of the crawl core

A Dafny model of the code that decides what a bank crawl may do and what becomes of
its results: how observed transactions are folded into stored rows, who owns a
crawl and when it must stop, how sessions, schedules and pairings move through
their states, and how results, histories, change pages and event streams are
encoded. `dafny verify dfyconfig.toml` checks everything.

| module | models |
|---|---|
| `TxIdentity`, `PromotionSpec`, `CrawlPlanner`, `PlannerTheorems`, `PromotionContents`, `ReferenceUniqueness` | transaction reconciliation: a decision table, the loop over mutable indexes that refines it, and what every promotion guarantees |
| `OwnershipMonitor` | the worker's mirror of its database lease and the work it fences |
| `CrawlExecutor`, `ExecutorHistory`, `CrawlProcess` | executions with their awaits, cancellation tombstones and close-before-complete fences; the same state updated in place |
| `SessionLifecycle`, `SessionStore` | session, connection and device rows under arbitrarily interleaved transactions; the guarded updates themselves |
| `ScheduleHandover` | the hand-over of scheduled occurrences |
| `DevicePairing`, `PairingStore` | pairing intents and their stories; the guarded updates themselves |
| `CanonicalJson` | the canonical printer, a parser for it and the output digest |
| `TransactionHistory`, `HistoryUploads` | history fragmentation and the upload buffer |
| `SseStream`, `SseRoundTrip` | the incremental event-stream parser, and that it emits what was written |
| `ChangeCursor` | the keyset change cursor |
| `Basics`, `JsText`, `Utf16Order`, `Sorting` | shared vocabulary |

Protocols are step systems: a database transaction, or a stretch of JavaScript from
one await to the next, is one atomic step, and the theorems hold for every
interleaving. Where the source updates state in place, a class does too, and its
methods are proved to be those steps.

Where a natural property is false of the code, the model follows the code, shows an
input and states the exact condition:

- a cancellation with an empty reason lifts the fence of an earlier one (`EmptyReasonLiftsFence`, `AdmittedExactly`); this is a fact of the exported function, since its one caller, the cancel route, passes a constant reason;
- a monitor started later than its first deadline fences at once but possibly after the lease expired, and leaves its interval armed (`LateLaunch`, `LateLaunchKeepsInterval`);
- a device revocation cancels a session whose success is already recorded, which an operator's cancellation cannot (`RevokeCancelsFinished`, `FinishedLostExactly`);
- a wake-up before its time can dispatch one occurrence twice (`EarlyWakeDispatchesTwice`, `HarmlessExactly`);
- an approved row that lost its reference can share it afterwards (`DriftedTargetSharesReference`, `UniqueAfterwardsExactly`);
- chunk boundaries show exactly when a CR precedes a CRLF, and leading empty data lines are lost (`SplitsInvisibleExactly`, `DataJoinExactly`).

## Model

| member | source | states |
|---|---|---|
| `CrawlPlanner.PlanTransactions` | apps/control-plane/src/data/plan-crawl-results.ts:118-348 | The loop over mutable maps and an incremental inverse index computes exactly the specified run (a decision table over plain rows), for every input, including which of its two errors it throws |
| `CrawlPlanner.CanonicalIndex.constructor` | apps/control-plane/src/data/plan-crawl-results.ts:118-161 | The index starts as the exact inverse of the stored rows, with no empty owner set |
| `CrawlPlanner.CanonicalIndex.AddCanonicalOwner` | apps/control-plane/src/data/plan-crawl-results.ts:125-136 | One owner is added to one key; no other owner set changes |
| `CrawlPlanner.CanonicalIndex.RemoveCanonicalOwner` | apps/control-plane/src/data/plan-crawl-results.ts:137-149 | One owner leaves one key, and an emptied key disappears |
| `CrawlPlanner.CanonicalIndex.ReplaceStoredIndex` | apps/control-plane/src/data/plan-crawl-results.ts:150-158 | Replacing a row keeps the index the exact inverse of the rows |
| `CrawlPlanner.CountBankReferences` | apps/control-plane/src/data/plan-crawl-results.ts:183-194 | The map counts, for every key, the observations carrying that bank reference |
| `CrawlPlanner.DemotionTest` | apps/control-plane/src/data/plan-crawl-results.ts:172-181 | The look-ups in the live and frozen indexes agree with searching the rows themselves |
| `CrawlPlanner.DemoteReference` | apps/control-plane/src/data/plan-crawl-results.ts:244-291 | Which reference an ambiguous observation may keep, and the row an update names |
| `CrawlPlanner.AssignIdentity` | apps/control-plane/src/data/plan-crawl-results.ts:244-319 | Demotion, assignment and the fall-back on a taken row id give the decision the table specifies |
| `CrawlPlanner.Identify` | apps/control-plane/src/data/plan-crawl-results.ts:231-323 | The drops, then the identity: together the decision of the table |
| `CrawlPlanner.WriteRow` | apps/control-plane/src/data/plan-crawl-results.ts:325-347 | Merge, counters, index, claim ledger and newest date change as specified and nothing else does |
| `CrawlPlanner.PlanOne` | apps/control-plane/src/data/plan-crawl-results.ts:206-348 | One iteration is one application of the decision table, errors included |
| `CrawlPlanner.PlanNext` | apps/control-plane/src/data/plan-crawl-results.ts:206-348 | One iteration takes the specified run one observation further |
| `CrawlPlanner.Freeze` | apps/control-plane/src/data/plan-crawl-results.ts:162-194 | What is computed before the loop: honoured targets, dropped claims, the frozen inverse index and the reference counts |
| `PlannerTheorems.Conservation` | apps/control-plane/src/data/plan-crawl-results.ts:196-348 | Stored plus dropped is the number of observations, added plus modified plus replayed is stored, rows grow by exactly the additions and none disappears |
| `PlannerTheorems.RowCount` | apps/control-plane/src/data/plan-crawl-results.ts:334-341 | Row count and row ids after any prefix of the run |
| `PlannerTheorems.UnobservedUnchanged` | apps/control-plane/src/data/plan-crawl-results.ts:339-341 | A row not marked observed has its old data |
| `PlannerTheorems.IdentityDropsExactly` | apps/control-plane/src/data/plan-crawl-results.ts:293-323 | An observation is dropped for want of an identity exactly when its approved row id is empty, or it needs an occurrence identity and its occurrence or scope id is empty |
| `PlannerTheorems.AlwaysIdentified` | apps/control-plane/src/data/plan-crawl-results.ts:293-323 | With non-empty row, scope and occurrence ids that drop never happens inside the loop |
| `PlannerTheorems.FreshRow` | apps/control-plane/src/data/plan-crawl-results.ts:272-319 | With collision-free hashes and an unused scope, every observation that is not an update opens a row nobody has |
| `PlannerTheorems.DistinctRows` | apps/control-plane/src/data/plan-crawl-results.ts:206-348 | Distinct written observations land on distinct rows, however alike they look |
| `PlannerTheorems.UntargetedRowsUnchanged` | apps/control-plane/src/data/plan-crawl-results.ts:206-348 | A stored row that is not the target of an honoured update keeps its data |
| `PromotionContents.ContentsOfWritten` | apps/control-plane/src/data/plan-crawl-results.ts:325-341 | After any later part of the run the row of a written observation has its booking date and every field it carries with its values; of an updated row every other field is the stored one, and a new row has no other field |
| `PromotionContents.RecordsReferenceExactly` | apps/control-plane/src/data/plan-crawl-results.ts:244-319 | Exactly when the row of a written observation ends up with its bank reference: an updated row when nothing else in the batch or the rows has it (or it was declared under it), a new row when nothing has it and its own row id is free |
| `PromotionContents.ObservedExactly` | apps/control-plane/src/data/plan-crawl-results.ts:339-341 | Exactly the written rows are marked observed |
| `PromotionContents.DropsExactly` | apps/control-plane/src/data/plan-crawl-results.ts:231-242 | Exactly which unclaimed observations are dropped as a rejected declaration and which as older than the floor |
| `PromotionContents.ThrowsExactly` | apps/control-plane/src/data/plan-crawl-results.ts:206-220 | A promotion throws exactly at an observation whose occurrence came before or whose claim names no existing row |
| `PlannerTheorems.TargetIsStored` | apps/control-plane/src/data/plan-crawl-results.ts:251 | The non-null target look-up of an honoured update always finds a stored row |
| `PlannerTheorems.BankReferencesStayUnique` | apps/control-plane/src/data/plan-crawl-results.ts:251-291 | If no bank reference had two owning rows and every honoured target still carries the reference it was sent under, none has two afterwards |
| `ReferenceUniqueness.UniqueAfterwardsExactly` | apps/control-plane/src/data/plan-crawl-results.ts:172-181 | With bank references unique before, every batch leaves them unique if and only if no approved row drifted from a bank reference that another stored row carries, or that a batch can put on its own new row or on another approved row of the account; the condition reads stored rows and targets only |
| `ReferenceUniqueness.ExposedBreaks` | apps/control-plane/src/data/plan-crawl-results.ts:251-269 | For every such row, a batch of one or two observations that leaves the reference on two rows, whatever its other fields |
| `ReferenceUniqueness.SharingExposes` | apps/control-plane/src/data/plan-crawl-results.ts:251-291 | Every batch that ends with a shared reference names such a row |
| `ReferenceUniqueness.StepUniqueExactly` | apps/control-plane/src/data/plan-crawl-results.ts:251-291 | One observation breaks uniqueness exactly when an update keeps a declared bank reference another row has come to carry |
| `PlannerTheorems.DriftedTargetSharesReference` | apps/control-plane/src/data/plan-crawl-results.ts:251-269 | Without that condition it fails: a concrete batch leaves one bank reference on two rows |
| `PlannerTheorems.ReplayIsExact` | apps/control-plane/src/data/plan-crawl-results.ts:201-229 | Rerunning on its own output never throws and replays every observation the first run stored, whatever the new targets and floor date |
| `PlannerTheorems.ReplayIsIdentity` | apps/control-plane/src/data/plan-crawl-results.ts:201-229 | If the first run dropped nothing, the rerun changes no row, no claim and no counter but stored |
| `PlannerTheorems.NewestBounds` | apps/control-plane/src/data/plan-crawl-results.ts:222-227 | No stored observation was booked after the reported newest date |
| `PlannerTheorems.NewestAttained` | apps/control-plane/src/data/plan-crawl-results.ts:342-347 | The reported date is that of a stored observation, and absent exactly when nothing was stored |
| `TxIdentity.ResolveUpdateTargets` | apps/control-plane/src/data/tx-identity.ts:161-248 | A claim resolves iff its key is claimed once, has one approved target that exists under the same account, and no other eligible key names that row; every other claim is dropped with its reason |
| `TxIdentity.GroupClaims` | apps/control-plane/src/data/tx-identity.ts:166-176 | Claim positions by key: every declared claim once, no empty group |
| `TxIdentity.CheckKey` | apps/control-plane/src/data/tx-identity.ts:182-229 | One key resolves to its only approved stored row, or the first failing test is the reason |
| `TxIdentity.CheckKeys` | apps/control-plane/src/data/tx-identity.ts:178-229 | All keys checked on their own, in whatever order |
| `TxIdentity.GroupByTarget` | apps/control-plane/src/data/tx-identity.ts:231-236 | Surviving keys grouped by the row they name |
| `TxIdentity.DropShared` | apps/control-plane/src/data/tx-identity.ts:231-246 | A row named by several keys is updated by none of them |
| `TxIdentity.ResolvedInjective` | apps/control-plane/src/data/tx-identity.ts:231-247 | No stored row is the target of two honoured updates |
| `TxIdentity.AcceptanceIgnoresOrder` | apps/control-plane/src/data/tx-identity.ts:161-248 | Permuting the claims changes no resolved target |
| `TxIdentity.OccurrenceIdIsNotBank` | apps/control-plane/src/data/tx-identity.ts:90-97 | The canonical id minted for an occurrence row is never taken for a bank reference |
| `TxIdentity.BankIdExactly` | apps/control-plane/src/data/tx-identity.ts:90-97 | Exactly which references are the bank's own: between the blanks around it something that is not NONE and does not start with content: or occurrence:, in whatever case |
| `CanonicalJson.PrintsNormalForm` | packages/contracts/src/worker-broker.ts:125-154 | The printer throws exactly on unserialisable values and otherwise prints the plain rendering of the normal form |
| `CanonicalJson.ParseRendered` | packages/contracts/src/worker-broker.ts:125-154 | A parser of the canonical texts reads back every rendered normal value, whatever follows it |
| `CanonicalJson.RoundTrip` | packages/contracts/src/worker-broker.ts:125-154 | Parsing the canonical text recovers the normal form: keys sorted, undefined fields removed, -0 as 0 |
| `CanonicalJson.Unambiguous` | packages/contracts/src/worker-broker.ts:125-154 | Two values print alike iff they have the same normal form |
| `CanonicalJson.FieldOrderIrrelevant` | packages/contracts/src/worker-broker.ts:138-154 | Reordering the fields of an object never changes its text |
| `CanonicalJson.DigestIdentifiesResults` | packages/contracts/src/worker-broker.ts:156-167 | Under a collision-free hash, equal digests mean equal results list by list, and conversely |
| `SseStream.StreamEvents` | apps/web/src/api.ts:355-380 | The read loop emits the events of the streamed frames and keeps the remainder |
| `SseStream.EmitFrames` | apps/web/src/api.ts:363-379 | The inner loop emits every complete frame of the buffer |
| `SseStream.ParseFrame` | apps/web/src/api.ts:368-378 | The line loop over one frame: type, joined data and id, or nothing for a frame without fields |
| `SseRoundTrip.TextOfLines` | apps/web/src/api.ts:372 | Every frame is its lines, none with a line feed, joined by line feeds |
| `SseRoundTrip.LinesOfText` | apps/web/src/api.ts:372 | The lines of a text written line by line are those lines |
| `SseRoundTrip.FrameRoundTrip` | apps/web/src/api.ts:368-378 | The frame written from any message with trimmed, one-line kind and id and one-line data is emitted as exactly that message |
| `SseRoundTrip.SilentExactly` | apps/web/src/api.ts:371-378 | A frame emits nothing exactly when none of its lines is an event, data or id line |
| `SseRoundTrip.CommentIgnored` | apps/web/src/api.ts:373 | Comments and unknown lines change nothing |
| `SseRoundTrip.SentIsReceived` | apps/web/src/api.ts:355-380 | End to end: however a written stream is split into chunks, exactly the messages sent are emitted, in order, and nothing is kept back |
| `JsText.TrimCuts` | apps/web/src/api.ts:374-376 | Trimming removes exactly the whitespace at both ends |
| `JsText.TrimAround` | apps/web/src/api.ts:374-376 | Trimming finds again exactly what stands between blanks |
| `SseStream.StreamingEqualsBatch` | apps/web/src/api.ts:358-367 | Cutting chunk by chunk gives the frames and remainder of the whole text normalised once, when no CR stands before a CRLF |
| `SseStream.SplitsInvisibleExactly` | apps/web/src/api.ts:358-367 | Every split of a text is invisible if and only if no CR stands immediately before a CRLF in it |
| `SseStream.CrCrlfShows` | apps/web/src/api.ts:362 | For every text with such a CR, the split that shows the difference |
| `SseStream.EventsIgnoreSplits` | apps/web/src/api.ts:355-380 | The events of a stream do not depend on its split into chunks |
| `SseStream.DataJoinExactly` | apps/web/src/api.ts:375 | Data lines join as section 9.2 of the WHATWG HTML Living Standard says exactly when a first of several lines is not empty; otherwise text is lost |
| `ChangeCursor.CursorRoundTrip` | apps/control-plane/src/data/public-data.ts:125-142 | decodeCursor undoes encodeCursor for every id, separators included |
| `ChangeCursor.DecodesExactly` | apps/control-plane/src/data/public-data.ts:129-142 | A missing or malformed cursor starts from the beginning; any other names the date and id around its first separator |
| `ChangeCursor.SyncPage` | apps/control-plane/src/data/public-data.ts:144-171 | One page is the next rows in order, split into added and modified, with the cursor of the last row |
| `ChangeCursor.PageIsFull` | apps/control-plane/src/data/public-data.ts:35-38 | A page holds as many pending rows as the limit allows, says truly whether there is more, and points at its last row |
| `ChangeCursor.SplitRows` | apps/control-plane/src/data/public-data.ts:161-167 | Rows never modified since insertion against the others, in order |
| `ChangeCursor.SplitConserves` | apps/control-plane/src/data/public-data.ts:161-167 | The split loses and invents no row |
| `ChangeCursor.SplitExactly` | apps/control-plane/src/data/public-data.ts:161-167 | Added are exactly the rows not rewritten since insertion, modified exactly the others |
| `ChangeCursor.FollowCursor` | apps/control-plane/src/data/public-data.ts:144-171 | On every stored table and for every limit of at least 1, following nextCursor until hasMore is false terminates and delivers exactly the rows after the start, in order |
| `ChangeCursor.PendingFacts` | apps/control-plane/src/data/public-data.ts:151-157 | Those rows are the ones strictly after the watermark, each as often as in the table, ascending by (updatedAt, id) |
| `ChangeCursor.PendingRunsForward` | apps/control-plane/src/data/public-data.ts:151-157 | Stamps never fall along the pages, and equal stamps come in id order |
| `ChangeCursor.PendingAfterPage` | apps/control-plane/src/data/public-data.ts:168-170 | After the cursor of the k-th pending row exactly the rest is pending |
| `ChangeCursor.DeliveredExactly` | apps/control-plane/src/data/public-data.ts:118-171 | Over a walk with rows written between its pages with any stamps, versions come strictly in order, none twice, and when it ends a version not written over has been delivered if and only if it was there, or was stamped, after the cursor of its time |
| `ChangeCursor.LastVersionDelivered` | apps/control-plane/src/data/public-data.ts:118-171 | The last version of a row is delivered when the walk ends, if it lies after the start and its own writes were stamped after the cursor, whatever is written to other rows |
| `ChangeCursor.EarlierWriteIsLost` | apps/control-plane/src/data/public-data.ts:151-157 | A version stamped at or before the cursor is not delivered by the rest of the walk |
| `ChangeCursor.ClampExactly` | apps/control-plane/src/data/public-data.ts:29-33 | clampLimit as a function: the default when absent or not positive, the whole part up to 500, and 0 only for a fraction below one; its routes only pass positive integers |
| `TransactionHistory.Build` | packages/contracts/src/transaction-history.ts:73-105 | The fragments are the consecutive pieces of the payload and the manifest describes them |
| `TransactionHistory.Reassemble` | packages/contracts/src/transaction-history.ts:138-181 | The list, or the first of the checks that fails |
| `TransactionHistory.BuildThenReassemble` | packages/contracts/src/transaction-history.ts:73-181 | Reassembling a built history gives the same list |
| `TransactionHistory.AcceptedMeansSame` | packages/contracts/src/transaction-history.ts:138-181 | When no other payload has the digest of the list's own, chunks accepted under its manifest are that list: missing, repeated, reordered or altered bytes never pass |
| `HistoryUploads.UploadStore.Put` | apps/engine/src/transaction-history-store.ts:47-90 | A chunk is appended, recognised as an exact retry, or invalidates the upload, as specified, with every error |
| `HistoryUploads.UploadStore.Offer` | apps/engine/src/transaction-history-store.ts:68-90 | The index, byte and retry checks on an existing upload |
| `HistoryUploads.UploadStore.Consume` | apps/engine/src/transaction-history-store.ts:92-108 | The accepted chunks, or the first failing check |
| `HistoryUploads.UploadStore.Discard` | apps/engine/src/transaction-history-store.ts:110-112 | Only the named session is forgotten |
| `HistoryUploads.UploadStore.PurgeExpired` | apps/engine/src/transaction-history-store.ts:28-33 | Exactly the uploads untouched for longer than the time to live disappear |
| `HistoryUploads.UploadStore.HasUploadState` | apps/engine/src/transaction-history-store.ts:42-45 | Whether an unexpired upload of the session exists |
| `HistoryUploads.UploadStore.Invalidate` | apps/engine/src/transaction-history-store.ts:35-39 | The upload keeps its chunks and records the reason |
| `HistoryUploads.PutsExactly` | apps/engine/src/transaction-history-store.ts:47-90 | Exactly which puts are accepted and what they leave; a refused chunk marks a valid upload invalid and changes none of its chunks |
| `HistoryUploads.ConsumesExactly` | apps/engine/src/transaction-history-store.ts:92-108 | Exactly when a history can be consumed, and that it is the accepted chunks |
| `HistoryUploads.RunsStayExact` | apps/engine/src/transaction-history-store.ts:47-90 | On every run accepted chunks stay an index-exact prefix within the declared count and bytes |
| `HistoryUploads.AcceptedNeverChange` | apps/engine/src/transaction-history-store.ts:47-90 | A surviving upload keeps its manifest and its accepted chunks, and an invalid one is frozen |
| `HistoryUploads.ConsumedIsWhole` | apps/engine/src/transaction-history-store.ts:92-108 | What is consumed is complete, in order, valid and of the requested manifest |
| `HistoryUploads.InvalidNeverConsumed` | apps/engine/src/transaction-history-store.ts:92-108 | An invalidated upload is refused to every consumer until it is discarded or expires |
| `HistoryUploads.OrderlyProgress` | apps/engine/src/transaction-history-store.ts:47-90 | In-order chunks with any exact retries, amid any other traffic, are all accepted |
| `HistoryUploads.HistoryRoundTrip` | apps/engine/src/transaction-history-store.ts:28-108 | Fragment, upload in order with retries within the time to live, consume, reassemble: the same list |
| `OwnershipMonitor.LeaseMonitor.constructor` | apps/engine/src/job-worker.ts:71-148 | The monitor starts with the clamped grace, the first deadline armed or already fenced, and the interval armed last |
| `OwnershipMonitor.LeaseMonitor.ArmLease` | apps/engine/src/job-worker.ts:107-123 | The deadline is the confirmation plus lease less grace, or the fence fires at once |
| `OwnershipMonitor.LeaseMonitor.Answer` | apps/engine/src/job-worker.ts:129-143 | A running answer re-arms from the start of the attempt, another status fences, a failure changes nothing |
| `OwnershipMonitor.FenceSafety` | apps/engine/src/job-worker.ts:71-158 | Every run keeps: at most one fence, none after stop, no work invoked after it |
| `OwnershipMonitor.FenceOnceFromLaunch` | apps/engine/src/job-worker.ts:343-386 | The same for every run from the launch of any job |
| `OwnershipMonitor.StepEventsExactly` | apps/engine/src/job-worker.ts:97-144 | Exactly when a step fences: not stopped, and the lease timer fires, the answer is anything but running, or it confirms an attempt already within the grace; and exactly when it invokes work |
| `OwnershipMonitor.StepTimersExactly` | apps/engine/src/job-worker.ts:107-144 | Exactly when polls start and end, where the deadline goes, and when the monitor stops |
| `OwnershipMonitor.FenceEndsWork` | apps/engine/src/job-worker.ts:343-386 | Whenever a worker must fence it does, and nothing is invoked or fenced afterwards on any continuation |
| `OwnershipMonitor.RevokedAnswerFences` | apps/engine/src/job-worker.ts:131-135 | An answer other than running fences at once and ends the work on every continuation |
| `OwnershipMonitor.DeadlineNeverMovesBack` | apps/engine/src/job-worker.ts:107-144 | Over whole runs the local deadline never moves backwards |
| `OwnershipMonitor.FenceBeforeExpiry` | apps/engine/src/job-worker.ts:71-158 | Started in time, on every run of delayed, failing or lost heartbeats the fence leaves the grace period before the database lease can expire |
| `OwnershipMonitor.LateLaunch` | apps/engine/src/job-worker.ts:343-386 | Exactly when the launch itself fences, that it then starts no work and otherwise starts it, and exactly when that fence is in time |
| `OwnershipMonitor.LateLaunchKeepsInterval` | apps/engine/src/job-worker.ts:146-156 | After a late launch the heartbeat interval stays armed, stop does not clear it, and every poll does nothing |
| `CrawlExecutor.LocalSound` | apps/engine/src/crawl-executor.ts:163-334 | Every run-to-await of an execution keeps flags, browser and place in the code consistent and undoes nothing |
| `CrawlExecutor.StepSafe` | apps/engine/src/crawl-executor.ts:102-334 | Every step of any execution, cancellation or dispatch keeps the whole process invariant |
| `CrawlExecutor.CompleteOnlyBehindFences` | apps/engine/src/crawl-executor.ts:297-330 | On every run completeSession is called only with no context or a positively closed one and the extra fence passed; while it runs no execution of that session holds a browser |
| `CrawlExecutor.NoWorkAfterAbort` | apps/engine/src/crawl-executor.ts:203-276 | On every run no agent loop starts after its abort, and each execution calls completeSession at most once |
| `ExecutorHistory.AgentStartsExactly` | apps/engine/src/crawl-executor.ts:219-276 | On every run an agent loop starts if and only if preflight, context, egress guard and page all succeeded, with no abort logged before the page came |
| `ExecutorHistory.SetupGoesOnExactly` | apps/engine/src/crawl-executor.ts:219-277 | On every run each setup await is reached exactly when the one before it succeeded without an abort, and settles once |
| `ExecutorHistory.TeardownExactly` | apps/engine/src/crawl-executor.ts:182-330 | On every run the browser, its close, the extra fence and the outcome are recorded exactly when their awaits settled well, and an abort or the watchdog always has the browser closed |
| `ExecutorHistory.HandleUntilClosed` | apps/engine/src/crawl-executor.ts:229-308 | On every run a context is registered while it is open and no longer than until its positive close, and an execution exactly while it lives |
| `CrawlExecutor.OneExecutionPerSession` | apps/engine/src/crawl-executor.ts:116-142 | On every run a session has at most one live execution and at most one open browser |
| `CrawlExecutor.FenceIsLastReason` | apps/engine/src/crawl-executor.ts:64-78 | The tombstone of a session is the reason of its last cancellation in the run |
| `CrawlExecutor.AdmittedExactly` | apps/engine/src/crawl-executor.ts:107-147 | A dispatch starts an execution exactly when that last reason is absent or empty and nothing of the session is registered, and starts it at the preflight unless already aborted |
| `CrawlExecutor.FencedSession` | apps/engine/src/crawl-executor.ts:64-121 | After a cancellation with a reason, and until one without, no execution of the session is admitted and only one already inside createContext can still gain a context |
| `CrawlExecutor.PositiveCancelIsFence` | apps/engine/src/crawl-executor.ts:61-78 | A positive result is a safe fence: once the execution registered at the cancellation has ended well, every execution of the session has ended without a browser on every continuation without an empty reason, and the outcome is persisted |
| `CrawlExecutor.RunOlderOver` | apps/engine/src/crawl-executor.ts:116-142 | On every run all earlier executions of a session have ended without a browser |
| `CrawlExecutor.EmptyReasonLiftsFence` | apps/engine/src/crawl-executor.ts:107-115 | As a fact of the exported function: a second cancellation with an empty reason lifts the fence of the first |
| `CrawlProcess.Execution.Resume` | apps/engine/src/crawl-executor.ts:163-334 | The closure variables updated in place: each run-to-await, with its at-most-once context close, is the corresponding step |
| `CrawlProcess.Engine.ExecuteCrawl` | apps/engine/src/crawl-executor.ts:102-147 | Refused, already executing, or registered: the Dispatch step |
| `CrawlProcess.Engine.CancelExecution` | apps/engine/src/crawl-executor.ts:64-74 | Fence first, then abort: the Cancel step |
| `CrawlProcess.Engine.Continue` | apps/engine/src/crawl-executor.ts:146-160 | A continuation and its deregistration change one execution and its own registrations |
| `SessionLifecycle.OneLockedSession` | apps/control-plane/src/data/sessions.ts:50-104 | However all steps interleave, no connection has two locked sessions |
| `SessionLifecycle.OutcomesAreFinal` | apps/control-plane/src/data/cancel-session.ts:23-110 | A terminal status never changes again, and a session that entered cancelling ends only cancelled or failed |
| `SessionLifecycle.TerminalStatusOrigin` | apps/control-plane/src/data/sessions.ts:161-223 | On every run a session is completed, cancelled or failed if and only if the first step that unlocked it is one of the steps that say so |
| `SessionLifecycle.CancellingExactly` | apps/control-plane/src/data/cancel-session.ts:23-74 | Exactly which steps start cancelling a session, record its success, or bind its device |
| `SessionLifecycle.StepLock` | apps/control-plane/src/data/sessions.ts:19-26 | Every single step keeps the lock unique |
| `SessionLifecycle.RowFollows` | apps/control-plane/src/data/sessions.ts:161-223 | How any step may change a session row: no unlocking is undone, done events stay, a successful done event needs an active row |
| `SessionLifecycle.ReapedNeverDone` | apps/control-plane/src/data/sessions.ts:197-223 | No session is ever both reaped and done |
| `SessionLifecycle.ReapsExactly` | apps/control-plane/src/data/sessions.ts:189-223 | On every run a reaper takes exactly the active sessions last seen alive before its threshold, with a lapsed lease and no done event |
| `SessionLifecycle.HeartbeatIsLastAlive` | apps/control-plane/src/data/sessions.ts:174-181 | On every run the heartbeat column is the time of the last sign of life |
| `SessionLifecycle.NeverReapedWhileRenewed` | apps/control-plane/src/data/sessions.ts:73-83 | From creation on, a session whose heartbeats are at most one lease apart is not reaped up to one lease after the last, whatever the staleness threshold and reaper timing |
| `SessionLifecycle.LeasedSessionSurvives` | apps/control-plane/src/data/sessions.ts:175-223 | The same from any state with a running lease |
| `SessionLifecycle.FinishedLostExactly` | apps/control-plane/src/data/devices.ts:213-221 | A step cancels a session whose success is recorded exactly when it revokes the very device the active session is bound to, or is a progress write that reports the cancellation |
| `SessionLifecycle.FinishedWorkSurvives` | apps/control-plane/src/data/sessions.ts:208-219 | Over whole runs, whatever other devices are revoked: while no device the session is or becomes bound to is revoked, a session whose success is recorded is neither cancelled nor reaped (it may still end failed by the control plane's own verdict) |
| `SessionLifecycle.RevokeCancelsFinished` | apps/control-plane/src/data/devices.ts:213-221 | For instance: create, bind, complete successfully, revoke the device, and the finished session is cancelling |
| `SessionLifecycle.RevokedDevicesIdle` | apps/control-plane/src/data/devices.ts:197-222 | No active session is ever bound to a revoked device |
| `SessionLifecycle.TokensOpenOnce` | apps/control-plane/src/data/sessions.ts:53-99 | On every run each claim token opens at most one session, of the connection and revision it was issued for |
| `SessionLifecycle.DeadTokenOpensNothing` | apps/control-plane/src/data/sessions.ts:53-72 | A token no longer outstanding opens nothing on any continuation, however often its job is delivered |
| `SessionLifecycle.EditVoidsClaims` | apps/control-plane/src/data/connections.ts:259-289 | No token issued before a schedule edit opens a session after it |
| `SessionLifecycle.RestoreSparesLockedConnections` | apps/control-plane/src/data/sessions.ts:121-158 | Restoring changes at most the status of its connection, never while its lock is held, and only once the token is void |
| `SessionStore.Store.CreateCrawlSession` | apps/control-plane/src/data/sessions.ts:50-104 | The Create step, and an id exactly when the fence accepts and no lock is held |
| `SessionStore.Store.RestoreStaleScheduleClaim` | apps/control-plane/src/data/sessions.ts:112-159 | The RestoreClaim step and whether it restored |
| `SessionStore.Store.MarkSessionTerminal` | apps/control-plane/src/data/sessions.ts:167-172 | Only an active row becomes terminal |
| `SessionStore.Store.HeartbeatSession` | apps/control-plane/src/data/sessions.ts:175-181 | Heartbeat and lease move together |
| `SessionStore.Store.ReapStaleSessions` | apps/control-plane/src/data/sessions.ts:197-223 | Exactly the stale, unleased, unfinished active sessions fail, and exactly those are reported |
| `SessionStore.Store.RequestSessionCancellation` | apps/control-plane/src/data/cancel-session.ts:23-74 | The RequestCancel step and exactly when each of its five answers is given |
| `SessionStore.Store.FinalizeSessionCancellation` | apps/control-plane/src/data/cancel-session.ts:77-88 | Only a cancelling row becomes cancelled |
| `SessionStore.Store.FinalizeSessionFailureAfterFence` | apps/control-plane/src/data/cancel-session.ts:94-110 | Only a cancelling row becomes failed |
| `SessionStore.Store.UpdateSchedule` | apps/control-plane/src/data/connections.ts:259-289 | Revision bumped and claim voided in one step, for the owner only |
| `SessionStore.Store.Delete` | apps/control-plane/src/data/connections.ts:323-357 | Deletes connection and sessions only when no session holds the lock |
| `SessionStore.Store.RevokeDeviceAccess` | apps/control-plane/src/data/devices.ts:197-222 | Device revoked once and exactly its active sessions moved to cancelling |
| `ScheduleHandover.SuccessorIsLaterExactly` | apps/control-plane/src/data/hosted-schedule-policy.ts:49-75 | The planned successor is strictly later than the claimed occurrence for every strictly later cron, if and only if the wake-up is early by less than the plan reaches |
| `ScheduleHandover.PlansExactly` | apps/control-plane/src/data/hosted-schedule-policy.ts:49-75 | A day, a week, or what the cron function says about the connection's own schedule in its own timezone |
| `ScheduleHandover.AnswersExactly` | apps/control-plane/src/data/hosted-schedule-policy.ts:93-151 | Exactly when a wake-up is told to wait, to consume, to advance, or that it is stale |
| `ScheduleHandover.FinishedIsConsumable` | apps/control-plane/src/data/hosted-schedule-policy.ts:119-175 | A wake-up is told its schedule was already advanced exactly when consuming its marker succeeds, with the same dispatch flag |
| `ScheduleHandover.HandOverSafety` | apps/control-plane/src/data/hosted-schedule-policy.ts:93-175 | With wake-ups duplicated and reordered and every one safe (not early when it dispatches, early by at most its backoff otherwise), each (revision, due time) authorises at most one crawl, and only with a strictly later successor committed and queued |
| `ScheduleHandover.HarmlessExactly` | apps/control-plane/src/data/hosted-schedule-policy.ts:49-175 | Exactly which wake-ups are harmless: delivered amid any safe wake-ups, edits and deletions, a wake-up never lets an occurrence authorise two crawls if and only if it is safe |
| `ScheduleHandover.UnsafeBreaks` | apps/control-plane/src/data/hosted-schedule-policy.ts:49-75 | For every unsafe wake-up, a schedule, a cron and a run in which all other wake-ups are safe and one occurrence authorises two crawls |
| `ScheduleHandover.RoundHandsOver` | apps/control-plane/src/data/hosted-schedule-policy.ts:119-175 | One round of wake, arm and consume hands over to the planned successor and authorises exactly what the plan dispatches |
| `ScheduleHandover.ArmedBeforeDispatch` | apps/control-plane/src/data/hosted-schedule-policy.ts:112-151 | Arming before dispatch needs no assumption about clocks or cron |
| `ScheduleHandover.AuthorisesExactly` | apps/control-plane/src/data/hosted-schedule-policy.ts:157-175 | Exactly which step authorises a crawl |
| `ScheduleHandover.OffAuthorisesNothing` | apps/control-plane/src/data/hosted-schedule-policy.ts:124-131 | A deleted or switched-off schedule authorises nothing more |
| `ScheduleHandover.OldRevisionsAuthoriseNothing` | apps/control-plane/src/data/hosted-schedule-policy.ts:124-131 | After an edit nothing of an earlier revision is authorised |
| `ScheduleHandover.EarlyWakeDispatchesTwice` | apps/control-plane/src/data/hosted-schedule-policy.ts:142-150 | For instance, the occurrence at 50 woken at 10, twice |
| `DevicePairing.PairingSafety` | apps/control-plane/src/data/device-pairing.ts:43-349 | On every run an intent mints at most once, only for its first claimant and the grants asked for, only after the owner approved that claim and before expiry, and is never both cancelled and used |
| `DevicePairing.StoryBegins` | apps/control-plane/src/data/device-pairing.ts:59-122 | An intent begins with the owner, code and grants asked for and five minutes, and creating it sweeps only expired intents of that owner |
| `DevicePairing.MintsExactly` | apps/control-plane/src/data/device-pairing.ts:286-341 | Exactly when credentials are minted: this code and claimant, approved, unexpired, and every granted connection still the owner's |
| `DevicePairing.StepSound` | apps/control-plane/src/data/device-pairing.ts:156-349 | Every step keeps each row telling where its story stands, and each story one of the lawful ones |
| `DevicePairing.StoriesGrow` | apps/control-plane/src/data/device-pairing.ts:82-121 | What happened to an intent is never rewritten, not even when its row is swept away |
| `DevicePairing.StatusIsStory` | apps/control-plane/src/data/device-pairing.ts:43-56 | The status shown is where the story stands, with expiry in between |
| `PairingStore.Store.CreatePairingIntent` | apps/control-plane/src/data/device-pairing.ts:59-122 | Created exactly for unique, owned grants and an unused code, after sweeping the expired intents of the owner |
| `PairingStore.Store.ClaimPairingIntent` | apps/control-plane/src/data/device-pairing.ts:156-196 | The ClaimIntent step; expired for an unknown code, otherwise the status of the row with the verification code for its claimant, first or repeated, and for nobody else; an error exactly when a first claim is in use elsewhere |
| `PairingStore.Store.ApprovePairingIntent` | apps/control-plane/src/data/device-pairing.ts:198-230 | The ApproveIntent step and the resulting status, for the owner only |
| `PairingStore.Store.CancelPairingIntent` | apps/control-plane/src/data/device-pairing.ts:232-256 | Cancelled exactly when neither used nor cancelled, for the owner only |
| `PairingStore.Store.CompletePairingIntent` | apps/control-plane/src/data/device-pairing.ts:263-349 | Paired exactly when the step mints; expired for an unknown code, otherwise the refusal the row calls for |

## Left out

- Hashes, base64, ISO dates and JSON.parse are parameters; a theorem that needs them injective or inverse to each other says so in its `requires`.
- Account and position merging, record validation schemas and the storage floor date: keyed upserts, parsers and a clock; the planner takes valid observations and a floor date.
- Upper-casing in the test for a bank reference covers ASCII only, which settles the four comparisons it feeds.
- Canonical JSON strings are sequences of characters without lone surrogates, and numbers are their printed literals; a float's own shortest printing is not modelled.
- Byte-to-text decoding of the event stream, its HTTP handling and the parsing of an event's data.
- Row ids in the change cursor are ordered by code unit; a database collation may order them otherwise.
- Stamps of stored rows are milliseconds, as the column `updated_at` keeps them (apps/control-plane/src/db/schema.ts:330-334).
- FenceBeforeExpiry: assumes timers fire when due, one clock for worker and database, and a monitor started before its first deadline; `LateLaunch` gives the other case.
- HandOverSafety: the store's writes follow the protocol the policy's comments describe (commit unarmed with the marker, arm, consume), since the hosted store is not part of this model; that no wake-up is lost is not claimed.
- The engine's cancel route appears as an outside close of a context and as dropping a handle that is closed and whose execution has ended; the route's own awaits and the tunnel fence are not modelled.
- The agent loop, browser, watchdog timing, heartbeats of the executor and the content of results: only when they start and end matters.
- Session rows keep the columns the transitions read; retention sweeps, error texts, the due-row retiming of a schedule edit and API keys of a revoked device are left out.
- The scheduler tick and its roll-back, the engine's progress, heartbeat and completion writes and device binding are environment steps of the session machine, with fresh claim tokens.
- Secrets in pairing are compared through a hash; that the first claimant is a person rather than a digest needs it collision-free. Hosted stores behind the same functions are not modelled.
- Webhooks, crawl bookkeeping, promotion bookkeeping, dispatch decisions, prompts, tunnels, routes and pages would only add short members or depend on outside services.
