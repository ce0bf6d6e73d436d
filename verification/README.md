# WATS: durable protocols, parsers and limits, verified

A Dafny model of the parts of WATS, a WhatsApp toolkit, whose correctness is hardest to see from the code:
the protocols of the persistence store, the serialisations used as identities, the configuration parser and
its printer, the webhook normaliser, and the rate limiter, retry loop and listener registry. What the
program changes step by step is modelled by classes and loops, each proved equal to a function on values;
what runs concurrently is modelled by state machines over those functions, and the results are statements
about every run.

`dafny verify dfyconfig.toml` checks everything.

| files | what they model |
|---|---|
| `Messages`, `StatusConvergence` | the status rule, the two tables behind it, and convergence whatever the order of events |
| `KeysetPaging`, `MessageListing` | cursor paging while other callers write |
| `ServiceRequests`, `KeyedSendCalls` | claim, send, complete: at most one send per key |
| `Outbox`, `OutboxRuns`, `OutboxWorker`, `OutboxBatch`, `OutboxLoop` | leases and fences, any number of workers, the batch loop, the timer loop |
| `Migrations` | migrate() by several processes with faults at any statement |
| `SqliteStore` | the store object, method by method |
| `PromiseChain`, `PostgresQueue` | the promises that serialise operations, the queue they refine, and close() |
| `JsonText`, `CanonicalForm`, `DepthGates`, `RequestHash` | JSON rendering, canonical form, the three depth gates and the keys and hashes built on them |
| `Normalizer`, `SyntheticIds` | the deduplicating, soft-truncating accumulator and derived ids |
| `TokenBucket`, `RetryLoop`, `Listener` | rate limiter, retries, listener registry |
| `YamlText`, `YamlParser`, `YamlRoundTrip`, `YamlTrees`, `YamlInsertion`, `YamlComments`, `YamlRefusals`, `InitConfig` | the indentation-stack parser, printing, comments, refusals, and the generated file |
| `Ordering`, `Wrappers` | orders, sorted listings, optional values and results |

How time, order and concurrency are modelled: timestamps are integer milliseconds; ids compare code by code;
each store method is one atomic step, except recordMessage, completeServiceRequest and migrate(), which are
taken statement by statement; callers, schedulers, handlers, clocks, sleeps, random numbers and faults are
parameters or arbitrary steps. A lock holder is identified with its call, so two calls never draw the same
random name. Inductive proofs call themselves; automatic induction is switched off in every lemma it would reach.

Where the code and its comments differ, the code is followed:

* packages/persistence/src/sqlite.ts:77 says events of the same rank may advance a status; only `failed` over
  a status of rank 1 can (`StatusOrder.AdvanceIsStrictIncrease`).
* packages/persistence/src/sqlite.ts:938-939 says updated_at never rolls backward; a repeated recording can
  take both the status and the time back (`StatusConvergence.LowerRepeatedRecordingRegresses`); the exact
  conditions are `StatusConvergence.RecordKeepsLawExactly` and `StatusConvergence.RecordKeepsTimeExactly`.
* A profile may be called true, false or null, and the generated YAML file then has a default profile that is
  not a string (`InitConfig.InitRoundTrip`).
* A comment behind a key without a value is read as its value, so the key opens no mapping
  (`YamlComments.CommentKeepsLineExactly`); YAML 1.2.2, section 6.6, has it ignored.

## Model

| member | source | states |
|---|---|---|
| StatusOrder.AdvanceIsStrictIncrease | packages/persistence/src/sqlite.ts:79-97 | The rank table and the gate for `failed` amount to strict increase in one linear order, {pending, unranked} < sent < failed < delivered < read; the one exception is failed over failed. |
| Messages.BestIsMaximum | packages/persistence/src/sqlite.ts:945-952 | Whatever the order of the events, the reconciliation fold ends in the greatest status among the starting one and the events, keeps the starting one on a tie, and never lowers the time. |
| Messages.BestIsDecided | packages/persistence/src/sqlite.ts:945-952 | Which status and time the fold yields: those of the earliest stored event of the greatest status, or of the latest when that status is failed, the time of the call being the least. |
| Messages.OrderByTimestampSorts | packages/persistence/src/sqlite.ts:941-943 | The events reach the fold in time order. |
| StatusConvergence.AppendKeepsLawExactly | packages/persistence/src/sqlite.ts:963-998 | An append keeps "every row has the maximum of its recorded status and its stored events" exactly when no row of the message stands above an event that is applied or below one that is not. |
| StatusConvergence.RewritesExactly | packages/persistence/src/sqlite.ts:954-960 | A recording reaches its UPDATE exactly when it is not turned away and a stored event has a greater status than the call, or is a later failure of a message recorded as failed. |
| StatusConvergence.RecordKeepsLawExactly | packages/persistence/src/sqlite.ts:899-961 | A recording, new or repeated, on either back end, breaks that law exactly when it is not turned away, a stored event goes beyond what it says, and some row was recorded above the call and above every stored event. |
| StatusConvergence.InterruptedRecordKeepsLawExactly | packages/persistence/src/sqlite.ts:899-934 | A recording that fails between its INSERT and its reconciliation keeps the law exactly when its row was not inserted or no stored event stands above it. |
| StatusConvergence.ReachableStatesKeepLaw | packages/persistence/src/sqlite.ts:899-998 | In every state reached by disciplined, uninterrupted runs (one direction and one recorded status per message id) every row has the maximum, with events before or after the recording, in any order, repeated or not. |
| StatusConvergence.StoredEventsAreTheAppended | packages/persistence/src/sqlite.ts:970-977 | The event table holds exactly the events ever appended, each once. |
| StatusConvergence.StoredStatusesAreTheAppended | packages/persistence/src/sqlite.ts:970-977 | The stored statuses of a message are exactly those ever appended for it. |
| Messages.RecordingAddsRow | packages/persistence/src/sqlite.ts:906-921 | A recording, finished or stopped after its INSERT, adds a row with the identity columns of its call exactly when no row has its row id, or its direction and message id, already; and no row is ever removed. |
| StatusConvergence.EveryRecordingHasARow | packages/persistence/src/sqlite.ts:906-921 | After any run that contains a recording, finished or interrupted, the table has a row with its row id or with its direction and message id. |
| StatusConvergence.EveryRowWasRecorded | packages/persistence/src/sqlite.ts:906-921 | Every row is that of a recording of the run, has its identity columns, and was recorded with its status. |
| StatusConvergence.Convergence | packages/persistence/src/postgres.ts:865-962 | Two such runs, even on different back ends, that append the same statuses for a message and record it with the same status end in the same status. |
| StatusConvergence.InterruptedRunsStayInReach | packages/persistence/src/sqlite.ts:899-998 | With interruptions a row never leaves the interval between its recording and the maximum of its events. |
| StatusConvergence.RepeatedRecordingRestores | packages/persistence/src/sqlite.ts:934-961 | Recording again after an interruption brings the row to the maximum. |
| StatusConvergence.AppendKeepsTimeExactly | packages/persistence/src/sqlite.ts:982-992 | An append moves some row's time backward exactly when it is applied to a row of the message later than both the event and the row its SELECT returned. |
| StatusConvergence.UpdatedAtAdvances | packages/persistence/src/sqlite.ts:982-992 | With one row to a message no append moves a time backward; and a first recording, on any table, never ends below the time of its call. |
| StatusConvergence.RecordKeepsTimeExactly | packages/persistence/src/sqlite.ts:934-961 | A recording moves some row's time backward exactly when it is not turned away, a stored event goes beyond what it says, and a row of the message is later than both the call and the event that decides. |
| StatusConvergence.RecordIsThreeStatements | packages/persistence/src/sqlite.ts:899-961 | With nothing in between, INSERT, SELECT and UPDATE are the recording. |
| StatusConvergence.LateUpdateKeepsLawExactly | packages/persistence/src/sqlite.ts:940-961 | Taken statement by statement, with another process appending between the SELECT and the UPDATE: the UPDATE leaves a row at its maximum exactly when no event stored by then stands above the call and everything the SELECT saw. |
| StatusConvergence.LowerRepeatedRecordingRegresses | packages/persistence/src/sqlite.ts:895-961 | A witness against the comment that the time never rolls backward: a repeated recording with a lower status or time takes the row back. |
| StatusConvergence.TwoDirectionsRegress | packages/persistence/src/sqlite.ts:982-992 | A witness that one id used in both directions can lose a status, because updates match on the id alone. |
| SqliteStore.SqlitePersistenceStore.RecordMessage | packages/persistence/src/sqlite.ts:899-935 | INSERT, then reconciliation: the row is there afterwards exactly as the unique keys allow, unless the INSERT failed; also when the SELECT or the UPDATE of the reconciliation fails, or the store is closed. |
| SqliteStore.SqlitePersistenceStore.ReconcileStoredStatus | packages/persistence/src/sqlite.ts:940-961 | The loop over the stored events computes the reconciliation. |
| SqliteStore.SqlitePersistenceStore.AppendMessageStatus | packages/persistence/src/sqlite.ts:963-998 | The transaction is the append step, or nothing when it fails. |
| KeysetPaging.WalkDescends | packages/persistence/src/sqlite.ts:1026-1041 | With the table growing between pages, the rest of a walk is strictly descending and below its cursor. |
| KeysetPaging.FinishedWalkIsComplete | packages/persistence/src/sqlite.ts:1026-1041 | A finished walk has returned every key that was a candidate when it began. |
| KeysetPaging.QuietWalkLength | packages/persistence/src/sqlite.ts:1037-1041 | Without writers a walk ends after exactly as many pages as the rows need. |
| KeysetPaging.QuietWalkIsTheListing | packages/persistence/src/sqlite.ts:1014-1041 | Without writers the pages put together are the sorted listing. |
| MessageListing.PageIsTop | packages/persistence/src/sqlite.ts:1011-1042 | A page is the top of the candidates below the cursor, and carries a cursor exactly when candidates are left over. |
| MessageListing.WalkNeverRepeats | packages/persistence/src/sqlite.ts:1011-1042 | A walk from the top, with other callers writing between its pages, returns rows in strictly descending (created_at, row_id) order and none twice. |
| MessageListing.FinishedWalkReturnsEveryRow | packages/persistence/src/sqlite.ts:1011-1042 | Once finished, it has returned every row that was there when it began. |
| MessageListing.QuietWalkIsTheTable | packages/persistence/src/sqlite.ts:1011-1042 | Without inserts, whatever else is written between the pages, the walk is the whole table, newest first, in exactly the pages it fills. |
| MessageListing.PagesOfARunGrow | packages/persistence/src/sqlite.ts:899-998 | Any run of recordings and appends, interrupted or not, cut anywhere between pages, gives the growing tables those results ask for. |
| MessageListing.PagesOfAQuietStretch | packages/persistence/src/sqlite.ts:899-998 | Appends and ignored inserts between the pages leave the walk without inserts. |
| SqliteStore.SqlitePersistenceStore.ListMessages | packages/persistence/src/sqlite.ts:1011-1042 | Cursor lookup, fetch of one row more, slice: the page is the top of the rows below the cursor, as they stand in the table, with a cursor exactly when rows are left over; an unknown cursor gives an empty page and a limit outside 1 to 100 an error. |
| KeyedSend.AtMostOneSendPerKey | packages/service/src/serviceRequests.ts:126-193 | With any number of handlers claiming, sending and completing, failing or crashing between any two steps, each key is sent at most once. |
| KeyedSend.ReplaysAreTheProducedResponse | packages/service/src/serviceRequests.ts:142-156 | All replays of a key give one response for one hash: what its only send brought back, or an older recording. |
| KeyedSend.OtherHashesOnlySeeConflict | packages/persistence/src/sqlite.ts:741 | Of two answers for one key under different hashes at least one is a conflict. |
| KeyedSend.RunsPersist | packages/persistence/src/sqlite.ts:686-788 | Along any continuation no key, hash, response or completed row changes; in particular the older recording never overwrites a reservation. |
| KeyedSend.StoredSendIsReplayedForever | packages/persistence/src/sqlite.ts:741-746 | Once a handler has stored its response, every later claim and lookup with its key and hash gives that response. |
| KeyedSend.FirstClaimIsGranted | packages/persistence/src/sqlite.ts:708-746 | In any run a claim by a waiting handler is granted exactly when it meets no fault and no claim that reached its write, nor an older recording, has taken the key before; of all claims of a key at most one is granted. |
| KeyedSend.SentExactly | packages/service/src/serviceRequests.ts:126-193 | A send goes out exactly when a handler that was granted its claim sends before it crashes. |
| KeyedSend.HandlerLeftAlone | packages/service/src/serviceRequests.ts:126-193 | A handler left alone with a free key claims it, sends once, and has its response stored with the times of its claim and its completion. |
| KeyedSend.HandlersHaveArrived | packages/service/src/serviceRequests.ts:126-193 | The handlers of a run are exactly those that have arrived in it. |
| KeyedSend.LookupsExactly | packages/persistence/src/sqlite.ts:670-684 | In every reachable state a lookup finds exactly the response stored under its key and hash, and a conflict exactly for a key taken under another hash. |
| KeyedSend.TakenClaimIsAnswered | packages/persistence/src/sqlite.ts:729-746 | A fault-free claim of a taken key is answered from its row: a conflict under another hash, a wait while no response is stored, and else that response, unless it is empty. |
| KeyedSend.LegacyRecordIsReplayedForever | packages/persistence/src/sqlite.ts:686-706 | A response recorded through the older interface under a free key is what every later claim and lookup with its hash gives. |
| ServiceRequests.StaleExactly | packages/persistence/src/sqlite.ts:772-787 | A completion finds its reservation stale exactly when another process has completed it between the two statements, and then leaves that response alone. |
| KeyedSend.CompletionIsNeverStale | packages/persistence/src/sqlite.ts:772-787 | A handler that has sent never finds its reservation stale, whatever other handlers do between the two statements. |
| KeyedSendCalls.ClaimKeyedSend | packages/service/src/serviceRequests.ts:126-156 | The call drives the store as the protocol says: without a fault it goes ahead exactly when the key is free; nothing configured means go ahead, a store without the protocol is refused, an empty stored response is an error and not a replay. |
| KeyedSendCalls.CompleteKeyedSend | packages/service/src/serviceRequests.ts:173-193 | True exactly when the completion was stored and reported; every store error is swallowed. |
| SqliteStore.SqlitePersistenceStore.ClaimServiceRequest | packages/persistence/src/sqlite.ts:708-746 | Insert-or-ignore and second look: without a fault a claim is reserved exactly when the key is not in the table; the key is then there and every other row as it was; with the fault cases of its write. |
| SqliteStore.SqlitePersistenceStore.CompleteServiceRequest | packages/persistence/src/sqlite.ts:748-788 | The completion as two statements around whatever other processes do, with its three rejections: no claim, another hash, and a reservation completed in between. |
| SqliteStore.SqlitePersistenceStore.RecordServiceRequest | packages/persistence/src/sqlite.ts:686-706 | The older recording: a completed row, never over an existing one; with the faults of its write. |
| SqliteStore.SqlitePersistenceStore.GetServiceRequest | packages/persistence/src/sqlite.ts:670-684 | The lookup: nothing for a claimed row, conflict for another hash. |
| Outbox.ClaimLeasesLeastDue | packages/persistence/src/sqlite.ts:812-854 | A claim leases as many of the due rows as its limit allows, hands them out as they now stand in the table, and touches no other row; which rows are due is the subject of OutboxRuns.ClaimHandsOutTheDue. |
| Outbox.ClaimTakesTheLeast | packages/persistence/src/sqlite.ts:828-834 | The batch is in (created_at, id) order, and every due item it leaves out comes after all of it. |
| OutboxRuns.LeasesIncrease | packages/persistence/src/sqlite.ts:835-846 | Each (item, lease) pair is handed out at most once: later claims carry greater leases. |
| OutboxRuns.OneMarkPerLease | packages/persistence/src/sqlite.ts:856-897 | At most one mark, of either kind, is accepted per (item, lease) pair. |
| OutboxRuns.MarkFollowsItsClaim | packages/persistence/src/sqlite.ts:856-897 | An accepted mark belongs to the latest claim of its item. |
| OutboxRuns.NothingAfterDone | packages/persistence/src/sqlite.ts:878-897 | Succeeded is final. |
| OutboxRuns.LeasesAreExclusive | packages/persistence/src/sqlite.ts:817-831 | Two claims of one item with no accepted failure between them carry clock readings at least 300000 ms apart. |
| OutboxRuns.StepConservesRows | packages/persistence/src/sqlite.ts:790-897 | No row disappears, identity columns never change, a succeeded row never changes, leases never go back. |
| OutboxRuns.LogDeterminesTable | packages/persistence/src/sqlite.ts:790-897 | In every reachable state the accepted operations determine the table: it holds exactly the enqueued items, each with attempts and lease counting its claims, and with the status and the times of its latest claim or mark. |
| OutboxRuns.ClaimHandsOutTheDue | packages/persistence/src/sqlite.ts:826-834 | In every reachable state a claim hands out what its history makes due: a new item from the time it was enqueued for, a failed one from its retry time, a claimed one exactly 300000 ms after its claim, a succeeded one never. An item that is due is left out only when the limit is used up by items before it in (created_at, id); so abandoned items come back. |
| OutboxRuns.StepsByLog | packages/persistence/src/sqlite.ts:790-897 | What each operation does, told by the history alone: an id is enqueued once, a mark is accepted exactly while its item is out under its lease, a claim lets each item out under its next lease. |
| OutboxWorker.SucceededMeansResolved | packages/persistence/src/outbox.ts:23-43 | With any number of workers, failing or crashing anywhere, an item is succeeded only if its handler resolved under that lease, and a returned report has processed = succeeded + failed. |
| OutboxWorker.NoSharedLease | packages/persistence/src/outbox.ts:23-43 | Two workers never hold the same (item, lease) pair. |
| OutboxWorker.WorkersWereStarted | packages/persistence/src/outbox.ts:23-43 | The workers of a run are exactly those that were started; any of them may crash at any point and leaves the store as it is. |
| OutboxWorker.StaleStaysStale | packages/persistence/src/sqlite.ts:856-897 | A lease that no longer fences its item never does again. |
| OutboxWorker.StaleSuccessAbortsBatch | packages/persistence/src/outbox.ts:27-40 | A stale success mark lands in the catch block, whose failure mark is stale too, so the batch is aborted whatever happens in between. |
| OutboxBatch.ReturnsAccountForAll | packages/persistence/src/outbox.ts:23-43 | However the handlers, the faults and the other callers behave, a batch that returns has marked every item it claimed exactly once. |
| OutboxBatch.TurnCompletesExactly | packages/persistence/src/outbox.ts:27-40 | An item does not abort the batch exactly when its mark goes through: the success mark while the item is out under the lease, or after a failure, or a success mark that failed before its write, the failure mark. |
| OutboxBatch.ReturnedBatchMarks | packages/persistence/src/outbox.ts:23-43 | In a batch that returns, exactly the items whose handlers resolved and whose success marks met no fault are marked succeeded, every other one failed with its retry time, and the report counts them. |
| OutboxBatch.QuietBatchReturns | packages/persistence/src/outbox.ts:23-43 | Left alone and without faults, a batch returns, and its report counts what the handlers did. |
| OutboxBatch.TurnIsARun | packages/persistence/src/outbox.ts:27-40 | A turn nobody interferes with is one of the runs of any number of workers. |
| OutboxBatch.RunTurn | packages/persistence/src/outbox.ts:28-40 | The try and catch of one item: success mark, and on any error the failure mark. |
| OutboxBatch.RunOutboxWorkerOnce | packages/persistence/src/outbox.ts:23-43 | The loop against the store, with other callers at work whenever it waits: its final table and report are those of the step-by-step worker. |
| SqliteStore.SqlitePersistenceStore.EnqueueOutboxItem | packages/persistence/src/sqlite.ts:790-810 | A new item is added pending; a known id is reported as a duplicate and left alone; with the faults of the write. |
| SqliteStore.SqlitePersistenceStore.ClaimOutboxItems | packages/persistence/src/sqlite.ts:812-854 | The transaction hands out what is due by the history and is the claim step, or nothing when any of its statements fails; limits outside 1 to 100 are refused. |
| SqliteStore.SqlitePersistenceStore.LeaseRows | packages/persistence/src/sqlite.ts:835-849 | The UPDATE loop, whose guard on status and lease always holds, leases the selected rows and hands them out as they then stand. |
| SqliteStore.SqlitePersistenceStore.MarkOutboxItemFailed | packages/persistence/src/sqlite.ts:856-876 | Accepted exactly when the row is processing under that lease; otherwise the lease is reported stale. |
| SqliteStore.SqlitePersistenceStore.MarkOutboxItemSucceeded | packages/persistence/src/sqlite.ts:878-897 | The same for success. |
| OutboxLoop.EveryScheduleIsSafe | packages/persistence/src/outboxWorker.ts:128-205 | Whatever the scheduler fires, batches never overlap, none starts after stop(), and the first stop() resolves exactly when nothing is in flight. |
| OutboxLoop.NothingAfterStopResolves | packages/persistence/src/outboxWorker.ts:168-204 | When stop() resolves, nothing ever happens again. |
| OutboxLoop.ArmedOrInFlight | packages/persistence/src/outboxWorker.ts:133-200 | With one firing per armed timer, a loop that is not stopped has exactly one of a timer armed and a batch in flight. |
| OutboxLoop.BatchesAreReported | packages/persistence/src/outboxWorker.ts:133-200 | Every batch that ends before stop() is called is reported, at once, and no other. |
| OutboxLoop.StepsByLog | packages/persistence/src/outboxWorker.ts:133-200 | What a firing, the end of a batch and a stop() do, told by what happened before: which start a batch, are reported, resolve stop(). |
| OutboxLoop.OutboxWorkerLoop.FireTimer | packages/persistence/src/outboxWorker.ts:138-145 | The callback starts a batch exactly when the loop is neither stopped nor running one. |
| OutboxLoop.OutboxWorkerLoop.FinishRun | packages/persistence/src/outboxWorker.ts:168-183 | The end of a batch: report, then release a waiting stop() or arm the next timer. |
| OutboxLoop.OutboxWorkerLoop.StopLoop | packages/persistence/src/outboxWorker.ts:188-200 | stop() resolves at once exactly when it is a repeat or nothing is in flight. |
| Migrations.AppliedStaysAPrefix | packages/persistence/src/sqlite.ts:606-637 | Over any interleaving of migrate() calls with any statement failing and any process dying, the applied set is a prefix of the list. |
| Migrations.EachMigrationCommitsOnce | packages/persistence/src/sqlite.ts:610-628 | No migration commits twice, and the commits follow the list. |
| Migrations.OneCallPastTheLock | packages/persistence/src/sqlite.ts:1082-1093 | At most one call is past the lock, and it holds it. |
| Migrations.OnlyTheHolderReleases | packages/persistence/src/sqlite.ts:1095-1101 | A lock is given back only by its holder on its way out. |
| Migrations.SuccessMeansCurrent | packages/persistence/src/sqlite.ts:629-633 | A call that reports success has left every migration applied. |
| Migrations.LaterCallsFindItCurrent | packages/persistence/src/sqlite.ts:610-633 | A call made after a success, if it succeeds, reports that it was already current. |
| Migrations.TamperedDatabaseIsLeftAlone | packages/persistence/src/sqlite.ts:1109-1119 | A database with a row of no known migration, or of another version or checksum than listed, is never touched, and no call on it succeeds. |
| Migrations.RefusedExactly | packages/persistence/src/sqlite.ts:1109-1119 | A call that gets the lock and reads the rows is refused for a mismatch exactly when some row is of no known migration or differs from it in version or checksum. |
| Migrations.HeldLockRefuses | packages/persistence/src/sqlite.ts:1080-1095 | A call that finds the lock held is refused and leaves the database as it is. |
| Migrations.CallsWereMade | packages/persistence/src/sqlite.ts:606-637 | The calls of a run are exactly those that were made, each once; any of them may die at any point and leaves the database as it is. |
| Migrations.RunCallIsARun | packages/persistence/src/sqlite.ts:583-637 | A call left to itself, faults included, is one of the runs those results cover. |
| Migrations.FaultFreeCallMigrates | packages/persistence/src/sqlite.ts:606-637 | Without faults, a call that finds the lock free and the database untampered applies exactly what is missing, reports it, and gives the lock back. |
| SqliteStore.SqlitePersistenceStore.Migrate | packages/persistence/src/sqlite.ts:583-637 | The method is such a call: lock, validate, apply the missing migrations one transaction each, and release in every case. |
| PromiseChain.BodiesWaitTheirTurn | packages/persistence/src/postgres.ts:609-621 | Whatever reactions fire in whatever order, a body starts only when the chain promise before it has settled, and with it all promises of every earlier call. |
| PromiseChain.RejectionsStayWithTheirCaller | packages/persistence/src/postgres.ts:609-621 | A caller sees the outcome of its own body, a rejection always as a typed error; the chain goes on fulfilled even so. |
| PromiseChain.EveryBodyRunsExactly | packages/persistence/src/postgres.ts:610-619 | Every body runs in every run exactly when one of the two rejection handlers is attached, the second fn or the swallow; with neither, a call after a rejected one is skipped. |
| PromiseChain.NeverStalls | packages/persistence/src/postgres.ts:609-621 | While a call has a promise unsettled, a reaction can fire or a body is running: failures block nothing. |
| PromiseChain.ReactionsRunOut | packages/persistence/src/postgres.ts:609-621 | Each reaction and each end of a body leaves less to do, so the chain comes to an end. |
| PromiseChain.RunRefines | packages/persistence/src/postgres.ts:609-621 | Every run of the promises shows a run of a queue in which one call at a time runs, event by event. |
| PromiseChain.OperationsNeverInterleave | packages/persistence/src/postgres.ts:609-621 | In every run of the promises the events follow the call order, so the queries of two operations never interleave. |
| PromiseChain.CloseIsClean | packages/persistence/src/postgres.ts:1045-1059 | The connection ends at the first close() only, after every earlier body has ended; nothing called later queries. |
| PromiseChain.ClosedStoreEnds | packages/persistence/src/postgres.ts:1045-1059 | Once every body of a closed store has ended, its connection has. |
| PromiseChain.CallAfterCloseIsRejected | packages/persistence/src/postgres.ts:1079-1085 | A call after close() leaves no trace. |
| PromiseChain.OpenUntilClose | packages/persistence/src/postgres.ts:1079-1085 | Calls are let in exactly until close() is called; each call let in, and each close(), takes the next place in the chain. |
| PromiseChain.PostgresPersistenceStore.Enter | packages/persistence/src/postgres.ts:609-621 | A public method adds its promises to the chain or throws, by the state of the door at the call. |
| PromiseChain.PostgresPersistenceStore.Shut | packages/persistence/src/postgres.ts:1045-1053 | close() shuts the door at once and joins the chain behind everything called before. |
| PromiseChain.PostgresPersistenceStore.React | packages/persistence/src/postgres.ts:1055-1059 | The reaction on the chain starts the body; that of a close ends the connection exactly if no earlier one has. |
| JsonText.EscapeUnambiguous | packages/service/src/webhookIngress.ts:177 | An escaped string with its closing quote is recognised wherever it stands: the string and what follows are determined. |
| JsonText.RenderUnambiguous | packages/service/src/webhookIngress.ts:155-182 | Unambiguous prefix: whatever delimited text follows, a rendering determines its value and where it ends. |
| JsonText.RenderingsDetermine | packages/service/src/webhookIngress.ts:155-182 | Equal renderings are of equal values. |
| JsonText.EscapeReads | packages/service/src/webhookIngress.ts:177 | Every text is escaped so that section 7 of RFC 8259 reads it back. |
| JsonText.EscapesPrescribed | packages/service/src/webhookIngress.ts:177 | Of the escapes the standard allows, those section 25.5.2 of ECMA-262 prescribes, with pairs of surrogates left as they are. |
| JsonText.RenderDenotes | packages/service/src/webhookIngress.ts:155-182 | The rendering of a value is its JSON text by sections 3 to 7 of RFC 8259, without white space and with members in order. |
| CanonicalForm.NormalFormsDecide | packages/service/src/serviceRequests.ts:71-80 | Two values have the same key-sorted copy exactly when they are equal up to key order at every level. |
| CanonicalForm.CanonicalIdentity | packages/service/src/webhookIngress.ts:155-182 | Within the depth limit, two values have equal canonical texts exactly when they are equal up to key order. |
| CanonicalForm.CanonicalTextExactly | packages/service/src/webhookIngress.ts:155-182 | The canonical text is the JSON text of the same value with the keys of every object ascending; there is one exactly for values of at most 128 levels. |
| Ordering.LexExactly | packages/service/src/webhookIngress.ts:168 | The order of keys, and of ids in listings: a proper prefix first, else by the first code that differs. |
| DepthGates.MeasureDepth | packages/service/src/webhookIngress.ts:56-76 | The measuring recursion, though it stops early, reports the nesting depth up to one past the limit. |
| DepthGates.BoundedCanonicalJson | packages/service/src/webhookIngress.ts:155-182 | The recursion that accumulates parts gives the canonical text of a value within the limit and null for every other. |
| DepthGates.DeepSortJson | packages/service/src/serviceRequests.ts:71-80 | The sorted copy of a value within the limit, an error for every other. |
| DepthGates.GatesAgree | packages/service/src/webhookIngress.ts:79-81 | The three gates accept exactly the same values, and the text is that of the sorted copy. |
| RequestHash.OwnOrderIs | packages/service/src/serviceRequests.ts:67-80 | The order in which the copy is enumerated: array indices ascending, then the other keys as they were added. |
| RequestHash.ArrayIndexExactly | packages/service/src/serviceRequests.ts:67-80 | The keys that are enumerated first are exactly the numbers below 2^32 - 1 written in decimal, each standing for itself. |
| RequestHash.CanonicalJsonString | packages/service/src/serviceRequests.ts:67-69 | Sort deeply, then stringify; an error past the depth limit. |
| RequestHash.RequestIdentity | packages/service/src/serviceRequests.ts:67-80 | The texts request hashes are taken of are equal exactly when the payloads are, up to key order. |
| DepthGates.ExtractStableFields | packages/service/src/webhookIngress.ts:140-149 | The loop keeps exactly the fields that do not depend on the time of receipt, and refuses what is no record. |
| DepthGates.FallbackDedupText | packages/service/src/webhookIngress.ts:121-133 | The text hashed for an update without an identity of its own, or none if it is no record or nests too deep. |
| DepthGates.FallbackIdentity | packages/service/src/webhookIngress.ts:111-149 | Two updates get the same text to hash exactly when they were received by the same profile and agree, up to key order, under every key but receivedAt and rawChange. |
| DepthGates.FamiliesNeverCollide | packages/service/src/webhookIngress.ts:83-133 | The texts hashed for messages, statuses and other updates tell which of them they are of, and determine what they were made of. |
| DepthGates.NamespacesNeverCollide | packages/service/src/serviceRequests.ts:96-111 | The text hashed for a namespaced key determines profile, account, operation and raw key. |
| Normalizer.SoftTruncation | packages/core/src/webhookNormalizer.ts:1649-1701 | A run with a limit is "dedupe, then take": its updates are the first of the unique candidates, the limit error is present exactly when there are more, and without it the skips are all of them. |
| Normalizer.TruncationIsAPrefix | packages/core/src/webhookNormalizer.ts:1579-1597 | Against a run whose limit is never hit: the updates are a prefix, the limit error tells exactly whether any are missing, and if none are the results are equal. |
| Normalizer.KeyIsIdentity | packages/core/src/webhookNormalizer.ts:1584 | The remembered key stands for exactly the pair of kind and id. |
| Normalizer.UniqueTakesTheFirsts | packages/core/src/webhookNormalizer.ts:1579-1597 | The updates emitted are, in order, exactly the candidates that are first with their kind and id. |
| Normalizer.UniqueCoversIdentities | packages/core/src/webhookNormalizer.ts:1579-1597 | Every identity among the candidates is emitted. |
| Normalizer.ListsConserve | packages/core/src/webhookNormalizer.ts:2209-2318 | Within a change that is descended into, every item is accounted for once: update, skip or overflow. |
| Normalizer.Accumulator.AddUpdate | packages/core/src/webhookNormalizer.ts:1579-1597 | True exactly when the update was appended; a duplicate becomes a skip, and a full accumulator counts overflow. |
| Normalizer.Accumulator.AddItems | packages/core/src/webhookNormalizer.ts:2209-2246 | The item loop: once the limit was hit, it only counts. |
| Normalizer.Accumulator.AddChange | packages/core/src/webhookNormalizer.ts:1711-1808 | One change: malformed, a single update, or lists of items. |
| Normalizer.NormalizeEnvelope | packages/core/src/webhookNormalizer.ts:1639-1701 | The nested loops over entries and changes compute the function those results are about. |
| Normalizer.NothingIsLost | packages/core/src/webhookNormalizer.ts:1639-1701 | Unless the limit was hit, each update an envelope holds, wherever it stands, is in the result, itself or an earlier one of its kind and id, with a duplicate skip at its path; and each malformed part is a skip at its path. |
| Normalizer.NothingIsInvented | packages/core/src/webhookNormalizer.ts:1639-1701 | Every update of the result, and without a limit error every skip, is of something the envelope holds. |
| SyntheticIds.ChangePathInjective | packages/core/src/webhookNormalizer.ts:1650-1676 | A change path determines the entry and change positions. |
| SyntheticIds.DecimalReads | packages/core/src/webhookNormalizer.ts:1650-1676 | Positions are written in decimal, without leading zeros. |
| SyntheticIds.SyntheticIdSays | packages/core/src/webhookNormalizer.ts:2456-2470 | What a synthetic id says: kind, account and field with every character outside A-Z, a-z, 0-9, _ and - replaced, and the change path as it is. |
| SyntheticIds.SyntheticIdsNeverCollide | packages/core/src/webhookNormalizer.ts:2456-2470 | Two synthetic ids of one kind are equal only for the same change of the same entry, whatever the account and field are sanitised to. |
| TokenBucket.TokensPayForAdmissions | packages/graph/src/rateLimiter.ts:96-109 | Tokens stay between 0 and the capacity, and what is admitted is paid for by the tokens at the start and the forward motion of the clock. |
| TokenBucket.WindowBound | packages/graph/src/rateLimiter.ts:83-180 | In any window of any interleaving the admitted cost is at most capacity plus refill rate times the forward clock motion in the window, however the clock jumped back. |
| TokenBucket.WaitIsExact | packages/graph/src/rateLimiter.ts:138-141 | Repeated with no competitor, a refused attempt is admitted if and only if the clock has moved on by at least the wait. |
| TokenBucket.AcquirePaysOnceOrNothing | packages/graph/src/rateLimiter.ts:112-171 | An acquire takes its cost once if granted and nothing if aborted or still waiting. |
| TokenBucket.RateLimiter.RefillTo | packages/graph/src/rateLimiter.ts:96-109 | The refill, forward, standing still or backward. |
| TokenBucket.RateLimiter.TryAcquire | packages/graph/src/rateLimiter.ts:172-180 | Refused costs leave the bucket alone; otherwise it is one attempt. |
| TokenBucket.RateLimiter.Acquire | packages/graph/src/rateLimiter.ts:112-171 | The waiting loop is the rounds the bounds cover, with other callers in between. |
| RetryLoop.DefaultFollowsTheTable | packages/graph/src/reliableTransport.ts:149-176 | The default policy's branches amount to one table of what may be sent again after what. |
| RetryLoop.DelayIsBounded | packages/graph/src/reliableTransport.ts:192-209 | Every delay lies between 0 and the maximum, whatever header, jitter or random number (Retry-After as in section 10.2.3 of RFC 9110). |
| RetryLoop.CeilingIsExponential | packages/graph/src/reliableTransport.ts:198 | The formula with a power of two is the ceiling that starts at the base and doubles with each attempt up to the maximum. |
| RetryLoop.DelayExactly | packages/graph/src/reliableTransport.ts:192-209 | Every delay exactly: a usable header (seconds, or a date against the clock) or a custom jitter, cut off at the maximum; otherwise the whole number of milliseconds in the ceiling times the random number; none for a negative jitter or a random number outside [0, 1]. |
| RetryLoop.OneTurn | packages/graph/src/reliableTransport.ts:303-341 | One turn: nothing is sent if the signal is aborted before or after the limiter, or the limiter throws, and the request ends with that reason; an abort seen after an error, or before a retry, ends it without a pause. |
| RetryLoop.RequestWithRetries | packages/graph/src/reliableTransport.ts:295-343 | For any transport, policy callbacks and aborts: at most retries + 1 calls, every delay in bounds, every re-send approved; under the default policy a POST in mode "never" is sent again only after a 429 each time, in "network-only" only after a 429 or a network error with an idempotency key; nothing is sent from an aborted turn on; when nothing interferes, it retries for exactly as long as the table says, with exactly those delays, and ends as the last answer did. |
| Listener.FirstMatchIsTheFirst | packages/core/src/listener.ts:391-411 | The first listener that does not pass on an update decides. |
| Listener.ListenerRegistry.ActiveCountIsUnsettled | packages/core/src/listener.ts:258-260 | The active count is the number of unsettled handles and never exceeds the cap. |
| Listener.ListenerRegistry.Register | packages/core/src/listener.ts:262-389 | Refused at the cap; an already aborted signal settles the handle without entering the map. |
| Listener.ListenerRegistry.SettleEntry | packages/core/src/listener.ts:243-255 | Settling takes the entry out, releases its timer and abort hook, and records one outcome. |
| Listener.ListenerRegistry.Interrupt | packages/core/src/listener.ts:344-386 | Timeout, abort and cancel reject a pending handle and do nothing to a settled one. |
| Listener.ListenerRegistry.Evaluate | packages/core/src/listener.ts:391-411 | The earliest match is taken out and resolved, every other entry stays as it is, and a throwing predicate leaves the registry alone. |
| Listener.ListenerRegistry.Clear | packages/core/src/listener.ts:413-429 | Every pending handle is rejected; settled ones keep their outcome. |
| Listener.Drive | packages/core/src/listener.ts:243-429 | Any sequence of calls, timers and aborts keeps the registry valid: each handle settles at most once and keeps its outcome. |
| YamlText.PlainExactly | packages/config/src/index.ts:481-512 | Written without quotes, a string is read back exactly when it is plain: trimmed, without comment mark or ": ", not a quoted text, word, number or flow opener. |
| YamlParser.ParseYamlObject | packages/config/src/index.ts:418-479 | The loops over lines and frames compute the parse of the source text. |
| YamlParser.ParseIsProper | packages/config/src/index.ts:418-479 | Whatever is parsed has no empty nested mapping and no repeated key at any level; and the errors for indentation and for an empty key are never raised. |
| YamlRoundTrip.PrintedParses | packages/config/src/index.ts:418-512 | Every document of non-empty block mappings with distinct plain keys and readable leaves, printed with any indentation step, is parsed back to what it means (section 8.2.2 of YAML 1.2.2). |
| YamlTrees.TreeRoundTrip | packages/config/src/index.ts:418-512 | Every proper tree, with strings quoted where they are not plain, survives printing and parsing. |
| YamlTrees.ParsableExactly | packages/config/src/index.ts:418-512 | The trees the parser can give are exactly the proper ones. |
| YamlInsertion.IgnoredLinesChangeNothing | packages/config/src/index.ts:422-428 | A blank or comment line inserted anywhere, before the first line, between two lines or after the last, with any line break, changes nothing. |
| YamlInsertion.AnyNumberChangeNothing | packages/config/src/index.ts:422-428 | Nor does any number of them, inserted one after another. |
| YamlComments.CommentIsCut | packages/config/src/index.ts:483-489 | A comment behind a value that opens no quote, with any space before its mark, changes nothing of what is read. |
| YamlComments.CommentKeepsLineExactly | packages/config/src/index.ts:430-489 | Exactly which lines say the same with a comment behind them: not a key without a value, since the comment is then read as its value, and not a value that opens a quote. |
| YamlComments.TrailingCommentChangesNothing | packages/config/src/index.ts:418-489 | A comment behind any line that takes it, anywhere in any file, changes nothing that is parsed. |
| YamlComments.PrintedLinesTakeComments | packages/config/src/index.ts:483-489 | Of the lines a document is printed as, a pair takes every comment unless its value opens a quote, and a header takes none. |
| YamlComments.SingleQuotedReads | packages/config/src/index.ts:492-497 | Between single quotes, as between double ones, every text is read back. |
| YamlComments.TildeReads | packages/config/src/index.ts:504 | A tilde is null. |
| YamlComments.NumbersExactly | packages/config/src/index.ts:507 | The texts read as numbers: a minus sign or none, digits, and possibly a point and more digits. |
| YamlComments.TrimmedCharacters | packages/config/src/index.ts:427 | Exactly the white space and line terminators of ECMA-262 are trimmed. |
| YamlRefusals.BadLinesAreRefused | packages/config/src/index.ts:430-438 | After any good document a line with a tab, or without a key, ends the parse with that error, whatever follows. |
| YamlRefusals.BadPairsAreRefused | packages/config/src/index.ts:458-472 | So does a key the document has already, and a value that opens a flow collection or looks like a mapping. |
| YamlRefusals.EmptyMappingIsRefused | packages/config/src/index.ts:440-476 | A key with nothing under it is refused at the next line that is not indented, or at the end of the file. |
| InitConfig.QuoteYamlSurvives | packages/cli/src/index.ts:909-911 | A quoted value comes back as the string it was exactly when it is bare and no word or number, or needs quotes but no escape, since the parser undoes none. |
| InitConfig.FileIsPrinted | packages/cli/src/index.ts:913-943 | The template is its document printed with two-space steps. |
| InitConfig.ConfigRoundTrip | packages/cli/src/index.ts:913-943 | A generated file with plain texts is read back as its configuration exactly when the profile name reads as a name. |
| InitConfig.ReservedNamesAreSafe | packages/cli/src/index.ts:752-754 | The names true, false and null pass the check of profile names. |
| InitConfig.InitRoundTrip | packages/cli/src/index.ts:888-907 | The first configuration comes back as written for every safe profile name but true, false and null. |

## Left out

- SQL text, drivers, the file system, real timers and fetch: tables are maps, and what the environment answers is a parameter or a step.
- SHA-256, HMAC and encryption: the results are about the texts that are hashed, so they carry over to the hashes as far as those are injective.
- Record validators and field-by-field payload mapping: a record or item is taken as already validated or already judged malformed.
- Floating point in the token bucket and the delays: arithmetic is over the reals; powers of two beyond the range of a double are not modelled.
- Text collation of the database: ids compare code by code on both back ends.
- Prototype keys of JavaScript objects (`__proto__`, a status called `constructor`): maps and records have only their own keys.
- JSON numbers: a number is carried by the text it renders to, so -0 and 0 are one value.
- Timestamps as text: the subtraction of the lease time near the year 0, where the text order and the time order part, is not modelled.
- Strings of the configuration parser are sequences of Unicode characters, so unpaired surrogates do not occur there; those of JSON are 16-bit code units.
- YamlParser.ParseYamlObject: a frame carries its mapping as a value and hands it to its parent when popped, so sharing of one object by frame and parent is not modelled, nor is the set of pending objects, which holds exactly the frames above the root; line numbers in errors are left out.
- Listener.ListenerRegistry.Evaluate: a filter's predicate is a function of the update, so one that calls back into the registry is not modelled.
- OutboxLoop.EveryScheduleIsSafe: a scheduler that throws and callbacks that reach into the loop are not modelled.
- OutboxBatch.RunOutboxWorkerOnce: the store stays open throughout the batch; a store closed meanwhile behaves as a fault before the write.
- PromiseChain.CloseIsClean: queries are events without contents; the statements of the Postgres operations are those modelled for SQLite, but for the early return of recordMessage.
- StatusConvergence.Convergence: only runs in which a message id has one direction and one recorded status are compared; the exact conditions under which a single step keeps the law are stated without that restriction.
- TokenBucket.WaitIsExact: one round with no competitor; there is no fairness among waiting callers to state.
- Signature checks, typed routing, the WhatsApp facade, endpoint definitions, telemetry, conversation windows and Graph pagination: they would add only easy members.
