# A verified model of the solid_mcp message pipeline

The project models how solid_mcp moves a message from `broadcast` to a session's callbacks, and proves what that path
guarantees. Two implementations of the pipeline exist in the repository and both are modelled:

* the Rust engine: senders, a bounded FIFO channel, a batching writer task, the `solid_mcp_messages` table, and one
  subscriber task per session (a polling loop on SQLite, a LISTEN/NOTIFY loop on Postgres);
* the Ruby side: `MessageWriter` with its `SizedQueue` and worker thread, `Subscriber#poll_once`, and `PubSub`.

Each worker appears twice. As a *machine* (`Writer`, `Subscription`, `RubyWriter`, `RubySubscriber`) its steps are the
points where another task can get in between; `Pipeline` composes the Rust machines, the table, the subscriber
registry, external marks and cleanups into one system with every interleaving. As *code* (`WriterLoop`,
`SubscriberLoops`, `Engine`, `SqliteStore`, `RubyWriterLoop`, `RubySubscriberLoop`, `RubyPubSub`) it is a class with the
source's fields and loops; every statement records the machine step it makes, so each run of the code is a run of the
machine and inherits what is proved of the machine's runs.

Files, in reading order:

| file | content |
|---|---|
| `Wrappers.dfy` | Option and Result |
| `Timestamps.dfy`, `Rfc3339.dfy` | UTC instants, their stored text, string order against time order, parsing, and subtraction in calendar fields |
| `Ledgers.dfy` | the table, its statements, and how it may change under a reader |
| `Batches.dfy` | batch writes and what they leave in the table |
| `Writer.dfy`, `WriterLoop.dfy` | the Rust writer as a machine and as code |
| `Subscription.dfy`, `Paging.dfy`, `Progress.dfy`, `SubscriberLoops.dfy` | the Rust subscriber as a machine, its pages, how fast it gets past a row, and both loops as code |
| `Pipeline.dfy`, `Guarantees.dfy`, `Overlap.dfy`, `Engine.dfy` | the whole Rust engine, what it promises end to end, when successive subscribers can overlap, and the `PubSub` object |
| `Sql.dfy`, `Statements.dfy`, `SqliteStore.dfy` | the generated placeholder groups and the whole statement texts with parsers for them, and the table with text timestamps |
| `RubyWriter.dfy`, `RubyFlush.dfy`, `RubyExit.dfy`, `RubyWriterLoop.dfy`, `RubyPipeline.dfy` | the Ruby writer as a machine, what its `flush` waits for, its way out, the writer as code, and the writer with its table |
| `RubySubscriber.dfy`, `RubyMarks.dfy`, `RubyRestarts.dfy`, `RubySubscriberLoop.dfy`, `RubyPubSub.dfy` | the Ruby subscriber as a machine, what it marks without processing, successive subscribers, the subscriber as code, and the PubSub object |
| `Transparency.dfy` | batch sizes, interleavings and the choice of writer do not show in the table |

`dafny verify dfyconfig.toml` verifies all of them.

## Assumptions

* Ids increase, are never reused after a delete, and rows become visible in id order. On SQLite this is AUTOINCREMENT
  with one writer; on Postgres it is a sequence with one committing writer. A failed insert may leave a gap.
* A batch insert is all or nothing; a fetch reads one snapshot. Any insert, fetch or mark may fail.
* `shutdown(self)` consumes the writer and with it the only sender, so nothing follows `Shutdown` into the channel.
  `NothingAfterShutdown` is this premise; only the shutdown theorems use it.
* `to_rfc3339()` of a UTC value with year 0 to 9999 and no leap second prints a four-digit year, two-digit fields, no
  fraction or a fraction of 3, 6 or 9 digits, and `+00:00`.
* The scheduler, the other callers, the notifications and the clock are inputs: a script or an arbitrary choice at every
  point where another task can run.

## Where the code and its documentation differ

The model follows the code.

* README.md:120 says messages are marked as delivered after successful processing. `poll_once` marks the whole fetched
  page even when a callback raised part-way (lib/solid_mcp/subscriber.rb:48-53, 95-97). `MarkedIsProcessedIff` gives the
  exact condition, `RaiseOnFirstLosesPage` a run that loses two messages, and `RaisedAndMarkedIsLost` says that such a
  loss is final.
* A Ruby `flush` waits until its marker is dequeued, and the batch drained with it is written only afterwards
  (lib/solid_mcp/message_writer.rb:168 before 117). `FlushReleasedBeforeWrite` is a run that shows it,
  `FlushIsABarrierIff` the exact condition at the time of the call, `FlushMissesLag` how many messages are missing, and
  `FlushLagsOneBatch` what always holds.
* lib/solid_mcp/message_writer.rb:81 calls the marker push "not subject to queue limits"; a blocking push on a
  `SizedQueue` waits for room, and markers count towards the capacity (`RubyWriter.Accounting`).
* ext/solid_mcp_native/core/src/subscriber.rs:101 logs "aborting" when `stop` times out; the task is only detached and
  may go on delivering (`TimedOutStopCanDeliverTwice`). `OverlapIff` says exactly when that can reach a row of the next
  subscriber.
* Nothing in the repository calls `notify` (ext/solid_mcp_native/core/src/db/postgres.rs:49), so notifications are
  arbitrary input and no liveness is claimed for the LISTEN/NOTIFY loop.

## Model

| member | source | states |
|---|---|---|
| `Guarantees.EndToEnd` | ext/solid_mcp_native/core/src/subscriber.rs:128-141 | in every interleaving the table is the accepted messages in FIFO order minus whole failed batches, and a subscriber's callback log is strictly increasing and holds a row with start < id <= last_id exactly when the fetch that passed over it found it unmarked and undeleted |
| `Guarantees.MissedRowsWereMarkedOrStale` | ext/solid_mcp_native/core/src/pubsub.rs:138-152 | a row of the session that the cursor passed without a callback had been marked, or deleted after being marked, or was older than `undelivered_retention` when deleted |
| `Guarantees.CleanupBalances` | ext/solid_mcp_native/core/src/pubsub.rs:138-152 | counts reported by all cleanups plus surviving rows equal the rows inserted |
| `Guarantees.OneTaskPerSession` | ext/solid_mcp_native/core/src/pubsub.rs:81-113 | over all subscribe/unsubscribe histories at most one running task per session, apart from timed-out ones |
| `Guarantees.SuccessorsDeliverLaterIds` | ext/solid_mcp_native/core/src/subscriber.rs:43-106 | without a timed-out stop, everything an earlier subscriber of a session delivered has a smaller id than everything a later one delivers, even after cleanup lowered MAX(id) |
| `Overlap.OverlapIff` | ext/solid_mcp_native/core/src/subscriber.rs:91-106 | decided when the later subscriber of a session is created: some continuation lets both deliver one row if and only if the earlier one, though told to stop, is at a fetch or waiting for a notification (given a writer that still accepts messages) |
| `Overlap.NoOverlapPastTheLastFetch` | ext/solid_mcp_native/core/src/subscriber.rs:128-159 | a predecessor past its last fetch at that moment never delivers a row its successor delivers, even when its `stop` timed out |
| `Overlap.LateFetchCanOverlap` | ext/solid_mcp_native/core/src/subscriber.rs:96-103 | otherwise, from every such reachable state, the run can go on so that both deliver the session's next message |
| `Overlap.BothDeliverIff` | ext/solid_mcp_native/core/src/subscriber.rs:128-141 | a row due in two subscribers is delivered by both if and only if each one's fetch over it found it pending |
| `Overlap.OverlapNeedsALateFetch` | ext/solid_mcp_native/core/src/subscriber.rs:91-106 | a row delivered by two subscribers of a session was fetched by the earlier one from a table that grew after the later one began |
| `Overlap.TimedOutStopCanDeliverTwice` | ext/solid_mcp_native/core/src/subscriber.rs:96-103 | a run in which a detached task and its successor both deliver the same row |
| `Guarantees.WriterRunsAlone` | ext/solid_mcp_native/core/src/pubsub.rs:18-23 | every run of the engine projects to a run of the writer machine with the same writer state |
| `Guarantees.FlushFillsTheTable` | ext/solid_mcp_native/core/src/writer.rs:67-74 | in the engine: once `flush` has returned, every message accepted before it has a row in the table unless its whole batch failed |
| `Guarantees.FetchAfterFlushSees` | ext/solid_mcp_native/core/src/writer.rs:67-74 | a fetch made any time later finds each such row, if still pending and past the cursor, in its page or behind a full page of earlier rows |
| `Guarantees.ShutdownFillsTheTable` | ext/solid_mcp_native/core/src/writer.rs:77-90 | after a shutdown the engine's table holds exactly the accepted messages in order, less whole failed batches |
| `Pipeline.RunKeepsInv` | ext/solid_mcp_native/core/src/pubsub.rs:18-23 | the joint invariant of writer, table, subscribers and registry holds in every reachable state |
| `Writer.RunKeepsInv` | ext/solid_mcp_native/core/src/writer.rs:93-158 | the writer's invariant (history, barrier, phase and size bounds, channel capacity) holds after every schedule |
| `Writer.Conservation` | ext/solid_mcp_native/core/src/writer.rs:93-195 | at every step: accepted messages = attempted batches ++ current batch ++ channel, in FIFO order; likewise flush waiters |
| `Writer.LoopHead` | ext/solid_mcp_native/core/src/writer.rs:97-105 | at each loop head and after exit both lists are empty and everything received was attempted and signalled |
| `Writer.FlushIsABarrier` | ext/solid_mcp_native/core/src/writer.rs:67-74 | when a flush has been acknowledged, every message accepted before it is in the table or in a failed batch, for every batch size, number of flushes and way of receiving it |
| `Writer.ShutdownIsLossless` | ext/solid_mcp_native/core/src/writer.rs:77-90 | at exit by any path every accepted message was attempted exactly once in order and every waiter signalled exactly once in order |
| `Writer.ShutdownBatchIsSmall` | ext/solid_mcp_native/core/src/writer.rs:114-120 | since nothing follows a Shutdown, the insert made while shutting down also has at most max(1, batch_size) rows |
| `Writer.WorkerCanMove` | ext/solid_mcp_native/core/src/writer.rs:99-125 | a worker that has been told to stop, or has no sender left, is never blocked before it halts |
| `Writer.ShutdownTerminates` | ext/solid_mcp_native/core/src/writer.rs:114-145 | from then on every continuation is bounded by a measure of the commands ahead, and ends only at Halted |
| `Writer.BatchSizes` | ext/solid_mcp_native/core/src/writer.rs:128-153 | every insert has at least one row, and at most max(1, batch_size) unless it is the one made while shutting down |
| `Writer.SettledMeansAttempted` | ext/solid_mcp_native/core/src/writer.rs:150-157 | with an empty batch and no queued message, the attempted sequence is the accepted sequence |
| `Batches.AttemptedOrFailed` | ext/solid_mcp_native/core/src/writer.rs:174-189 | an attempted message is in the written sequence or in a failed batch |
| `Batches.InsertHolds` | ext/solid_mcp_native/core/src/writer.rs:174-189 | an insert, or its failure, keeps the table equal to the successful batches with their ids |
| `Batches.CallIsRecorded` | ext/solid_mcp_native/core/src/writer.rs:174-189 | one call of the database, recorded with its answer, keeps calls, attempts and table in step |
| `WriterLoop.MessageWriter.Enqueue` | ext/solid_mcp_native/core/src/writer.rs:47-56 | accepted, dropped when full, or refused when the worker is gone; the accepted sequence grows by exactly this message or not at all |
| `WriterLoop.MessageWriter.Recv` | ext/solid_mcp_native/core/src/writer.rs:99-105 | a command from the head, Closed only when empty with no sender left, or an indefinite wait |
| `WriterLoop.MessageWriter.TryRecv` | ext/solid_mcp_native/core/src/writer.rs:130-147 | the head of the channel, or None only when it is empty at that moment |
| `WriterLoop.MessageWriter.WriteBatch` | ext/solid_mcp_native/core/src/writer.rs:174-189 | the database is called once, with exactly the batch; the table gains exactly these rows in order, or none when it fails; the recorded attempt carries the answer, and the batch is empty afterwards |
| `WriterLoop.MessageWriter.SignalFlushWaiters` | ext/solid_mcp_native/core/src/writer.rs:191-195 | every waiter is signalled once, in order, and the list is empty |
| `WriterLoop.MessageWriter.DrainRemaining` | ext/solid_mcp_native/core/src/writer.rs:160-172 | leaves an empty channel, everything in it having been sorted into the lists |
| `WriterLoop.MessageWriter.Finish` | ext/solid_mcp_native/core/src/writer.rs:114-125 | the shutdown path ends halted with both lists empty |
| `WriterLoop.MessageWriter.Keep` | ext/solid_mcp_native/core/src/writer.rs:130-145 | in the fill loop a message continues filling, a flush goes on to the write, a shutdown to the drain |
| `WriterLoop.MessageWriter.Fill` | ext/solid_mcp_native/core/src/writer.rs:128-148 | ends in the drain exactly when it met a Shutdown, and before a full batch only then, on a flush or on an empty channel |
| `WriterLoop.MessageWriter.Turn` | ext/solid_mcp_native/core/src/writer.rs:107-157 | one turn either leaves the loop with the receiver gone or is back at the loop head |
| `WriterLoop.MessageWriter.WriterLoop` | ext/solid_mcp_native/core/src/writer.rs:93-158 | the loop is a run of the machine; when it stops, both lists are empty, everything received was attempted and signalled in order, the insert calls are the attempts, and the table holds what the successful ones wrote |
| `Subscription.RunKeepsInv` | ext/solid_mcp_native/core/src/subscriber.rs:115-255 | with any notifications, failures and interference the log is the replay of the fetches, each continuing where the last stopped |
| `Subscription.LogAscends` | ext/solid_mcp_native/core/src/subscriber.rs:133-141 | callbacks run in strictly increasing id order, for the session only, past the initial cursor and up to last_id |
| `Subscription.LogIsExact` | ext/solid_mcp_native/core/src/subscriber.rs:128-141 | gap-free: exactly one fetch passed over each row of the session up to last_id, and the row was delivered if and only if that fetch found it pending |
| `Subscription.LogMembership` | ext/solid_mcp_native/core/src/subscriber.rs:179-232 | the same as a condition on membership in the log |
| `Subscription.DeliveredIsInserted` | ext/solid_mcp_native/core/src/subscriber.rs:43-44 | only rows inserted after the subscriber was created are delivered, whatever MAX(id) was |
| `Subscription.TableChangeKeepsInv` | ext/solid_mcp_native/core/src/subscriber.rs:131-143 | inserts, marks and deletes between a fetch and its callbacks do not disturb a subscriber |
| `Subscription.FetchKeepsInv` | ext/solid_mcp_native/core/src/subscriber.rs:130-131 | a fetch continues from the cursor and keeps the log exact |
| `Subscription.DeliverKeepsInv` | ext/solid_mcp_native/core/src/subscriber.rs:133-141 | each callback moves the cursor strictly up and keeps the log exact |
| `SubscriberLoops.SubscriberTask.constructor` | ext/solid_mcp_native/core/src/subscriber.rs:43-44 | a new subscriber starts at MAX(id) with nothing delivered |
| `SubscriberLoops.SubscriberTask.Fetch` | ext/solid_mcp_native/core/src/subscriber.rs:130-131 | fails, or returns the page past the cursor from a snapshot not older than the call |
| `SubscriberLoops.SubscriberTask.DeliverAll` | ext/solid_mcp_native/core/src/subscriber.rs:133-141 | the callbacks made are exactly the page, in order |
| `SubscriberLoops.SubscriberTask.FetchAndDeliver` | ext/solid_mcp_native/core/src/subscriber.rs:131-146 | one fetch: the whole page from the old cursor is delivered, or nothing changes |
| `SubscriberLoops.SubscriberTask.Sleep` | ext/solid_mcp_native/core/src/subscriber.rs:149-158 | the wait ends the loop only with the flag raised, and delivers nothing |
| `SubscriberLoops.SubscriberTask.PollTurn` | ext/solid_mcp_native/core/src/subscriber.rs:128-159 | every turn makes exactly one fetch of at most 100 rows |
| `SubscriberLoops.SubscriberTask.PollingLoop` | ext/solid_mcp_native/core/src/subscriber.rs:115-162 | the loop ends once the flag stays raised, and its callbacks are the ascending replay of its fetches |
| `SubscriberLoops.SubscriberTask.PostgresLoop` | ext/solid_mcp_native/core/src/subscriber.rs:166-255 | the catch-up of 1000 is fetched first, from the cursor, and its whole page delivered before anything else; without a connection nothing more happens; then the same as for polling, for any notification stream |
| `SubscriberLoops.SubscriberTask.ListenTurn` | ext/solid_mcp_native/core/src/subscriber.rs:210-249 | one turn takes exactly one notice and makes a fetch of at most 100 rows exactly when it names an id past the cursor |
| `SubscriberLoops.SubscriberTask.React` | ext/solid_mcp_native/core/src/subscriber.rs:211-248 | only a payload naming an id past the cursor makes a fetch; a listener error ends the loop |
| `SubscriberLoops.SubscriberTask.Hear` | ext/solid_mcp_native/core/src/subscriber.rs:216-233 | the fetch starts at the cursor and not at the notified id; other payloads change nothing |
| `Paging.PagingRefinesUnpagedQuery` | ext/solid_mcp_native/core/src/subscriber.rs:130-141 | k successful polls of a quiet table deliver exactly the first min(n, 100k) eligible rows, so ceil(n/100) polls equal one unlimited fetch |
| `Progress.RowIsPassed` | ext/solid_mcp_native/core/src/subscriber.rs:128-141 | under any inserts, marks, deletes and failed fetches: with b pending rows up to and including a row, after b/100 successful fetches, rounded up, the cursor is past it or it has been marked or deleted |
| `Paging.NotificationFetchesFromCursor` | ext/solid_mcp_native/core/src/subscriber.rs:216-232 | a qualifying notification delivers exactly min(100, backlog) rows from the cursor |
| `Engine.PubSub.Subscribe` | ext/solid_mcp_native/core/src/pubsub.rs:81-102 | refused for a subscribed session or a failing MAX(id), with the map unchanged; otherwise exactly one new task is registered |
| `Engine.PubSub.Stop` | ext/solid_mcp_native/core/src/subscriber.rs:91-106 | the session leaves the map; the task has ended, or has not and is detached |
| `Engine.PubSub.Unsubscribe` | ext/solid_mcp_native/core/src/pubsub.rs:105-113 | nothing happens for an unknown session; otherwise the entry is gone and its task ended or detached |
| `Engine.PubSub.Cleanup` | ext/solid_mcp_native/core/src/pubsub.rs:138-152 | the two deletes around arbitrary other statements, counts that are the numbers of rows meeting each condition, and what each failure leaves behind |
| `Engine.PubSub.StopAll` | ext/solid_mcp_native/core/src/pubsub.rs:155-167 | after the drain no task runs except detached ones |
| `Engine.NobodyLeft` | ext/solid_mcp_native/core/src/pubsub.rs:155-167 | with an empty map and no stop under way every task ever started has ended or was detached |
| `Engine.RegistryIsSound` | ext/solid_mcp_native/core/src/pubsub.rs:105-113 | every entry of the map refers to an existing task |
| `Ledgers.FetchIsExact` | ext/solid_mcp_native/core/src/db/sqlite.rs:117-136 | the page is strictly increasing and holds exactly the `limit` smallest pending rows of the session past the cursor |
| `Ledgers.Advance` | ext/solid_mcp_native/core/src/db/sqlite.rs:124-130 | moving the cursor to the first eligible row takes exactly that row off what is left |
| `Ledgers.InsertIsExact` | ext/solid_mcp_native/core/src/db/sqlite.rs:77-115 | row by row: an insert keeps every row and adds one unmarked row for each message, in order |
| `Ledgers.MarkIsExact` | ext/solid_mcp_native/core/src/db/sqlite.rs:161-181 | row by row: exactly the surviving rows with a listed id get the new time, every other row is as before |
| `Ledgers.CleanupDeliveredIsExact` | ext/solid_mcp_native/core/src/db/sqlite.rs:183-198 | row by row: exactly the surviving rows whose mark is older than the retention go |
| `Ledgers.CleanupUndeliveredIsExact` | ext/solid_mcp_native/core/src/db/sqlite.rs:200-215 | row by row: exactly the surviving unmarked rows older than the retention go |
| `Ledgers.InsertEvolves` | ext/solid_mcp_native/core/src/db/sqlite.rs:77-115 | an insert leaves old rows alone and uses only new, larger ids |
| `Ledgers.MarkEvolves` | app/models/solid_mcp/message.rb:15-17 | a mark changes no id or content, withdraws no mark and revives no row |
| `Ledgers.CleanupEvolves` | app/models/solid_mcp/message.rb:20-25 | the two deletes change no surviving row |
| `Ledgers.RemovedAreOld` | ext/solid_mcp_native/core/src/db/sqlite.rs:183-215 | the count each cleanup reports is the number of rows that met its condition |
| `Ledgers.MaxIdBounds` | ext/solid_mcp_native/core/src/db/sqlite.rs:217-223 | no surviving row has an id above MAX(id) |
| `Ledgers.MaxIdIsARow` | ext/solid_mcp_native/core/src/db/sqlite.rs:217-223 | MAX(id) is the id of a surviving row, or 0 when there is none |
| `Ledgers.MaxIdIsHandedOut` | ext/solid_mcp_native/core/src/db/sqlite.rs:217-223 | MAX(id) is not negative and below the next id, whatever was deleted |
| `Timestamps.InstantsAreGregorian` | ext/solid_mcp_native/core/src/db/sqlite.rs:184-185 | the model's instants are those of the proleptic Gregorian calendar in closed form, at 24 hours, 60 minutes and 60 seconds |
| `Timestamps.MonthLengthsAreGregorian` | ext/solid_mcp_native/core/src/db/sqlite.rs:184-185 | month lengths are the differences of that closed form |
| `Timestamps.CalendarOrderIsTimeOrder` | ext/solid_mcp_native/core/src/db/sqlite.rs:183-215 | field-by-field calendar order is the order of instants |
| `Timestamps.FractionOrder` | ext/solid_mcp_native/core/src/db/sqlite.rs:104 | fractions with 3, 6 or 9 digits followed by the offset compare as text the way the nanoseconds compare |
| `Timestamps.TextOrderIsTimeOrder` | ext/solid_mcp_native/core/src/db/sqlite.rs:183-215 | the string comparison in the cleanups is the comparison of the instants, for every mix of fraction lengths |
| `Timestamps.TextIsInjective` | ext/solid_mcp_native/core/src/db/sqlite.rs:146-153 | equal stored text is the same instant |
| `Sql.SqliteInsert` | ext/solid_mcp_native/core/src/db/sqlite.rs:82-105 | the loop builds the n-tuple text and the batch's columns in order |
| `Sql.PostgresInsert` | ext/solid_mcp_native/core/src/db/postgres.rs:186-211 | both loops together build the same text, with the batch's columns as bindings |
| `Sql.PostgresInsertBatch` | ext/solid_mcp_native/core/src/db/postgres.rs:62-74 | no statement for an empty batch; on either side of the size threshold the statement denotes exactly the batch's rows |
| `Sql.InsertDenotesBatch` | ext/solid_mcp_native/core/src/db/sqlite.rs:89-112 | parsing the generated tuples and resolving their placeholders against the bound parameters yields exactly the batch's rows in order, for either backend's columns |
| `Sql.PlaceholdersOnce` | ext/solid_mcp_native/core/src/db/sqlite.rs:93-100 | the text uses placeholders 1 to 4n once each, in order |
| `Sql.BackendsAgree` | ext/solid_mcp_native/core/src/db/postgres.rs:186-216 | both backends insert the same rows, up to the representation of the timestamp |
| `Sql.SqliteMark` | ext/solid_mcp_native/core/src/db/sqlite.rs:166-177 | the timestamp is bound first and the ids after it, in order |
| `Statements.UpdateDenotesIds` | ext/solid_mcp_native/core/src/db/sqlite.rs:166-178 | reading the whole UPDATE text, `$1` included, and resolving its placeholders gives: `delivered_at` becomes the first bound value, the timestamp, in exactly the rows whose id was bound after it |
| `Statements.InsertDenotesRows` | ext/solid_mcp_native/core/src/db/sqlite.rs:82-112 | reading the whole INSERT text and resolving its placeholders gives exactly the batch's rows in order, each value in the column the text names for it |
| `Statements.HeadTexts` | ext/solid_mcp_native/core/src/db/sqlite.rs:83-85 | the names and keywords are those of the source's texts |
| `Sql.DecimalReads` | ext/solid_mcp_native/core/src/db/sqlite.rs:94-100 | printed placeholder numbers read back as themselves |
| `SqliteStore.FetchReadsBack` | ext/solid_mcp_native/core/src/db/sqlite.rs:138-158 | mapping the stored rows back gives the same page: rows, order and instants |
| `Rfc3339.ParseInvertsPrint` | ext/solid_mcp_native/core/src/db/sqlite.rs:146-148 | a digit-by-digit parser that reads and subtracts the offset gives every printed instant back exactly, for each fraction length |
| `Rfc3339.PrintedShape` | ext/solid_mcp_native/core/src/db/sqlite.rs:104 | the printed text position by position: four-digit year, two-digit fields, separators, fraction length, `+00:00` |
| `Rfc3339.Minus` | ext/solid_mcp_native/core/src/db/sqlite.rs:184-185 | the subtraction in calendar fields is exact in nanoseconds, and fails exactly when the result is before year 0 |
| `Rfc3339.OlderIff` | ext/solid_mcp_native/core/src/db/sqlite.rs:183-215 | comparing stored text with the cutoff's text tells exactly whether the instant is older than the retention |
| `SqliteStore.TextCleanupIsTimeCleanup` | ext/solid_mcp_native/core/src/db/sqlite.rs:183-215 | comparing text with the computed cutoff deletes exactly the rows older than the retention |
| `SqliteStore.MarkOnRows` | ext/solid_mcp_native/core/src/db/sqlite.rs:166-178 | the update of stored rows is the ledger's mark |
| `SqliteStore.MaxIdOnRows` | ext/solid_mcp_native/core/src/db/sqlite.rs:217-223 | MAX(id) of the stored rows is the ledger's |
| `SqliteStore.Store.InsertBatch` | ext/solid_mcp_native/core/src/db/sqlite.rs:77-115 | building, binding and executing the text appends exactly the batch, column by column and in order, under the next ids, or nothing |
| `SqliteStore.Store.MarkDelivered` | ext/solid_mcp_native/core/src/db/sqlite.rs:161-181 | row by row: exactly the stored rows with a given id get the timestamp's text, every other row is as before; an empty list sends no statement |
| `SqliteStore.Store.Cleanup` | ext/solid_mcp_native/core/src/db/sqlite.rs:183-215 | with the cutoff computed from now and the retention, exactly the stored rows that are not older than it stay, and the count is the number of the others |
| `SqliteStore.Store.MaxId` | ext/solid_mcp_native/core/src/db/sqlite.rs:217-223 | the greatest stored id, 0 for an empty table |
| `SqliteStore.Store.FetchAfter` | ext/solid_mcp_native/core/src/db/sqlite.rs:117-159 | selecting and mapping stored rows gives the ledger's page |
| `Transparency.RustBatchingIsTransparent` | ext/solid_mcp_native/core/src/writer.rs:128-153 | any two batch sizes and interleavings with the same accepted order and no failed insert leave the same table contents |
| `Transparency.RubyBatchingIsTransparent` | lib/solid_mcp/message_writer.rb:107-189 | the same for two runs of the Ruby writer with its table |
| `Transparency.RustAndRubyFillTheSameTable` | lib/solid_mcp/message_writer.rb:107-189 | the same for a run of the Rust engine and a run of the Ruby writer with its table, with equal ids when none were skipped |
| `RubyPipeline.RunFillsTheTable` | lib/solid_mcp/message_writer.rb:172-189 | in every run of the Ruby writer among callers, marks and cleanups, the rows ever inserted are, in id order, the messages of the successful calls of insert_all |
| `RubyPipeline.EveryRowIsAccountedFor` | app/models/solid_mcp/message.rb:15-25 | in every run a row is pending, or was marked by a mark of its id, or was deleted by a cleanup whose retention for rows of its kind it had outlived |
| `RubyPipeline.CleanupLeavesNothingOld` | app/models/solid_mcp/message.rb:20-25 | after a cleanup no surviving row is older than the retention for rows of its kind |
| `RubyWriter.RunKeepsInv` | lib/solid_mcp/message_writer.rb:107-170 | the Ruby writer's invariant holds after every schedule of callers and worker |
| `RubyWriter.Accounting` | lib/solid_mcp/message_writer.rb:33-51 | queue length, markers included, stays within the capacity; accepted + dropped = enqueue calls; accepted = attempted ++ batch ++ queue |
| `RubyWriter.FlushLagsOneBatch` | lib/solid_mcp/message_writer.rb:75-91 | when a marker has been counted down, everything pushed before it was dequeued and attempted but for at most one batch, which is attempted before the next drain |
| `RubyFlush.FlushIsABarrierIff` | lib/solid_mcp/message_writer.rb:75-91 | decided at the push: when its latch is counted down, everything pushed before a marker was attempted if and only if the messages in the queue and in the batch being filled were a multiple of max(1, batch_size) |
| `RubyFlush.FlushMissesLag` | lib/solid_mcp/message_writer.rb:125-170 | at the instant the latch is counted down exactly that many messages, modulo max(1, batch_size), and the last ones pushed, have not been attempted |
| `RubyWriter.FlushReleasedBeforeWrite` | lib/solid_mcp/message_writer.rb:167-169 | a concrete run whose flush is released with nothing attempted |
| `RubyWriter.ExitLosesNothingChecked` | lib/solid_mcp/message_writer.rb:111-119 | at normal exit every message pushed before the final check was passed to insert_all exactly once in push order, and every such marker counted down |
| `RubyExit.ShutdownTerminates` | lib/solid_mcp/message_writer.rb:107-143 | once the shutdown flag is up, the number of further worker steps is bounded by a measure of the queue plus ten per further push, and only an exited worker has no step |
| `RubyWriter.AtRest` | lib/solid_mcp/message_writer.rb:111-119 | between drains everything popped was attempted or counted down, in order |
| `RubyWriter.BatchSizes` | lib/solid_mcp/message_writer.rb:152-165 | every insert_all has between 1 and max(1, batch_size) rows |
| `RubyWriter.SettledMeansAttempted` | lib/solid_mcp/message_writer.rb:107-123 | with nothing in hand and no queued message, the attempted sequence is the accepted sequence |
| `RubyWriterLoop.MessageWriter.Enqueue` | lib/solid_mcp/message_writer.rb:33-51 | accepted at the end of the queue, or counted as dropped when it is full |
| `RubyWriterLoop.MessageWriter.PopFirst` | lib/solid_mcp/message_writer.rb:130-143 | waits for an item and gives up only when shutting down with an empty queue |
| `RubyWriterLoop.MessageWriter.Fill` | lib/solid_mcp/message_writer.rb:152-165 | the fill ends before a full batch only on an empty queue |
| `RubyWriterLoop.MessageWriter.CountDown` | lib/solid_mcp/message_writer.rb:167-168 | every collected latch is counted down once, in order, before any write |
| `RubyWriterLoop.MessageWriter.DrainBatch` | lib/solid_mcp/message_writer.rb:125-170 | ends with a batch to write or back at the loop head |
| `RubyWriterLoop.MessageWriter.WriteBatch` | lib/solid_mcp/message_writer.rb:172-189 | insert_all is called once, with exactly the batch; the table gains exactly these rows in order, or none when it raises; the batch is gone either way |
| `RubyWriterLoop.MessageWriter.RunLoop` | lib/solid_mcp/message_writer.rb:107-123 | the loop is a run of the machine, returns only on shutdown with an empty queue, has attempted everything it popped in order, and the table holds what the successful calls wrote |
| `RubySubscriber.RunKeepsInv` | lib/solid_mcp/subscriber.rb:43-104 | the subscriber's invariant holds under any mix of raising callbacks, failing fetches and failing marks |
| `RubySubscriber.SuccessesIncrease` | lib/solid_mcp/subscriber.rb:75-100 | messages whose callbacks all succeeded form a strictly increasing log, so each succeeded in exactly one round |
| `RubySubscriber.RetriesNeedRaiseAndFailedMark` | lib/solid_mcp/subscriber.rb:43-63 | a message is tried again only if a callback raised on it and the mark of its page then failed |
| `RubyRestarts.RestartsProcessOnce` | lib/solid_mcp/subscriber.rb:9-53 | if marks succeed, successive subscribers starting at 0 process each row at most once in id order and leave nothing pending below the last page, whichever callbacks raise; what is marked is exactly what was processed if and only if none raised |
| `RubyMarks.MarkedIsProcessedIff` | lib/solid_mcp/subscriber.rb:48-53 | over every run of one subscriber object with any faults: every message marked delivered was processed if and only if no page on which a callback raised was marked |
| `RubyMarks.MarkedIsSettledForGood` | lib/solid_mcp/subscriber.rb:9-53 | a mark is final over every continuation, with any faults and any number of new subscribers starting at 0: nothing of the page is pending again or fetched again |
| `RubyMarks.RaisedAndMarkedIsLost` | lib/solid_mcp/subscriber.rb:48-53 | what a raised and marked page held from the raising message on is not processed by that poll nor by any later one of this or a later subscriber, and is never pending again; the same subscriber has not processed it before either |
| `RubyMarks.RaiseOnFirstLosesPage` | lib/solid_mcp/subscriber.rb:43-63 | a run of one poll over a table of two pending rows that ends with both marked in the table and neither processed |
| `RubySubscriber.FirstBadIsFirst` | lib/solid_mcp/subscriber.rb:93-98 | processing stops at the first message on which a callback raises |
| `RubySubscriberLoop.Subscriber.StartPolling` | lib/solid_mcp/subscriber.rb:19-33 | running afterwards; the retry counter is reset only by a real start |
| `RubySubscriberLoop.Subscriber.PollOnce` | lib/solid_mcp/subscriber.rb:43-63 | one poll for every combination of failures: the page, each tried message handed to each callback exactly once in order, the cursor before the first raising message, exactly the page's rows marked, retry counter and stop flag |
| `RubySubscriberLoop.Subscriber.Rescue` | lib/solid_mcp/subscriber.rb:55-63 | one more failure is counted and the subscriber stops exactly when the retries are used up |
| `RubySubscriberLoop.Subscriber.CallAll` | lib/solid_mcp/subscriber.rb:77-90 | exactly one call of each callback on the message, the j-th being callback j's, raising or not; success means that none raised |
| `RubySubscriberLoop.Subscriber.ProcessMessages` | lib/solid_mcp/subscriber.rb:75-100 | callbacks run on the messages up to and including the first raising one, and the cursor stops before it |
| `RubySubscriberLoop.Subscriber.FetchPage` | lib/solid_mcp/subscriber.rb:65-73 | the first 100 pending rows past the cursor, or a counted failure |
| `RubySubscriberLoop.Subscriber.MarkPage` | lib/solid_mcp/subscriber.rb:102-104 | row by row: exactly the surviving rows of the page are marked and the retries are reset, or a failure is counted |
| `RubySubscriberLoop.CallsForEachOnce` | lib/solid_mcp/subscriber.rb:75-90 | the rounds on a list of messages contain the call of callback j on the k-th message at place k * n + j, and nothing else |
| `RubyPubSub.PubSub.Subscribe` | lib/solid_mcp/pub_sub.rb:15-22 | the session's listener, new or already running, holds the array with the new block at its end |
| `RubyPubSub.PubSub.GetOrCreate` | lib/solid_mcp/pub_sub.rb:16-18 | an existing array is kept, a new one is shared with nobody |
| `RubyPubSub.PubSub.EnsureListenerFor` | lib/solid_mcp/pub_sub.rb:46-53 | at most one listener per session, holding the entry's own array |
| `RubyPubSub.PubSub.Unsubscribe` | lib/solid_mcp/pub_sub.rb:25-28 | the entry and the listener are gone and the listener is stopped; every other entry, array and listener is as before |
| `RubyPubSub.PubSub.ShutdownAll` | lib/solid_mcp/pub_sub.rb:36-41 | every listener is stopped and forgotten; the entries stay |
| `RubyPubSub.Replay` | lib/solid_mcp/pub_sub.rb:15-53 | after any sequential run of calls each listener calls exactly the blocks subscribed since its session was last unsubscribed |
| `RubyPubSub.ListenersSeeAllBlocks` | lib/solid_mcp/pub_sub.rb:15-53 | the denotation of a call sequence agrees with "subscribed since the last unsubscribe", and no listener lacks an entry |
| `RubyPubSub.ListenedToIff` | lib/solid_mcp/pub_sub.rb:15-58 | a session is listened to if and only if some call subscribed it and no later call unsubscribed it or shut down; calls about other sessions do not matter |

## Left out

- The foreign-call layer (ext/solid_mcp_native/ffi/src/lib.rs, lib/solid_mcp/native_speedup.rb): glue without state of its own.
- Real database, pool, network and tokio internals: an insert, fetch, mark or delete is one atomic statement that may fail.
- Wall-clock sleeps, polling intervals, flush and shutdown timeouts, logging: a timeout is an arbitrary choice, and only retention uses a clock.
- The callers' side of `flush` and `shutdown` in both writers: sending the command is an event of the machine, and the awaited answer is the signal or the halt in its history; the one-second and termination timeouts of the Ruby calls are not part of this model.
- `Message` construction, `MessageBatch`, `with_json`, configuration and URL detection: only easy members.
- `TestPubSub`, the Rails engine, generators, migrations, `CleanupJob`: wrappers.
- `Engine.PubSub.StopAll`: is the subscriber half of `shutdown`; the writer half (ext/solid_mcp_native/core/src/pubsub.rs:170-176) is `Writer.ShutdownIsLossless`, and the branch that cannot unwrap the writer's Arc is not part of this model.
- `Engine.PubSub.Cleanup`: lets the writer, the subscribers and external marks in between its deletes but no subscribe or unsubscribe call; `Pipeline` covers those too.
- `RubyPubSub.PubSub.ShutdownAll`: does not include the call of `MessageWriter.shutdown` that follows, which is the `Stop` event of `RubyWriter`.
- `RubyPubSub.Replay`: sequential calls only; a subscribe racing an unsubscribe is not part of this model.
- `RubyWriterLoop.MessageWriter.RunLoop`: errors outside `write_batch`, which reach the `retry` in lib/solid_mcp/message_writer.rb:120-122, are not part of this model.
- `SubscriberLoops.SubscriberTask.PollingLoop`: the loop ends because its environment raises the flag after finitely many reads; until then nothing bounds it. Panicking callbacks are not part of this model.
- `SubscriberLoops.SubscriberTask.PostgresLoop`: claims no liveness, since notifications may never come.
- `SqliteStore.Store.Cleanup`: a cutoff before year 0 is represented by its sign alone, which decides every comparison; a retention or result too large for chrono, where the source panics, is not part of this model.
- `Rfc3339.ParseInvertsPrint`: the parser wants an upper-case T and Z; other spellings that chrono's parser accepts, leap seconds, and rows whose timestamps were written in another text format (by Rails, say), are excluded.
- `Overlap.OverlapIff`: assumes a writer that still has a sender and a channel with capacity, and no Shutdown on its way; without new rows there is nothing to overlap on. `NoOverlapPastTheLastFetch` does not assume it.
- `Sql.SqliteInsert`: SQLite's limit on bound variables is not modelled; a statement over it counts as a failed insert.
- Postgres ids committed out of order by several engines, and i64 overflow of ids: excluded by the id assumption.
