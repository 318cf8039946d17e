# Verified model of the crash-safe sender and its idempotent receiver

The repository ships game events from a sender process to an ingestion server, at least
once, through an outbox on disk, and serves daily metrics from two tables. This project
models that path from the bytes of the journal to the rows of the tables, and proves that
nothing recorded is lost, nothing is counted twice, and the reported numbers mean what
they say.

## How it is built

* `Basics`, `Codec`, `Framing`, `JournalFiles`: bytes, JSON-string escaping, lines, and the
  block-wise readers of the journals.
* `Disk`, `Recovery`, `Opening`: the directory as explicit files. Every write, rename,
  truncate and unlink is one step; an append can stop after any byte, a rewritten document
  can be garbled, and a process can be killed between and inside any two steps. `View` says
  which queue a directory holds, for any directory at all.
* `OutboxModel`, `FailedCache`, `Outbox`: the outbox as a class over that directory. Each
  method is proved to perform a stated list of file steps, to move a stated abstract queue
  (pending events, number ever recorded, failed ids), and to be killable anywhere.
* `Batching`, `Draining`: the greedy partition and its agreement with the queue.
* `Ingestion`, `FirstWriteWins`, `Admission`, `Receiver`: one batch as a function on the two
  tables, its agreement with taking the events one at a time, what the guard and the columns
  refuse, and the guard, service and repository with their loops, proved against these.
* `Ack`, `SplitPlan`, `DaemonModel`, `Daemon`, `Reacting`: when a response may be trusted,
  the 413 split plan, and the send loop as a class with one request in flight.
* `System`: the whole protocol as a state machine whose steps use the same file operations,
  memories and tables as the classes. Its history records what was ever sent, recorded and
  returned. `Reconciliation` adds the modelled server, `RecordedTables` says what the tables
  then hold, `Progress` and `Blocking` say what every answer does to the queue and exactly
  when sender and server can settle everything, `Refusal` follows a batch under a permanent
  413, and `Refinement` runs the classes beside the protocol, step by step.
* `Limiter`: the sender's throttle and the receiver's rate limit, alone and together.
* `Relational`, `Metrics`, `Retention`, `Revenue`, `Engagement`: the SQL operators on rows,
  the metric queries written with them, and their set definitions. `Reporting` reads them from
  the receiver's tables.

Classes and loops appear where the source has them. A method's contract ties the new state
to a function of the old one; what the system promises is then proved about those
functions and, for the whole protocol, about every reachable state.

## Choices a reader should know

* An event is its `event_id` and an otherwise uninterpreted body. The journal line of an
  event is its JSON text, in which both parts are strings escaped as in section 7 of
  RFC 8259, so that no line contains a newline byte; the round trip is proved, not assumed.
  What the parser makes of any other text (as another program could have left it in a
  journal) is an arbitrary function, the constants `OTHER_EVENT` and `OTHER_FAILED`.
* Documents written whole (`checkpoint.json`, `compaction.json`) are either a state or
  unreadable text. A strict prefix of the JSON text of an object is never valid JSON.
* A fault at opening or writing the file inside `quarantine` sets the fault flag and ends the
  process, because nothing catches it on the way out of the send loop. A failed append or
  checkpoint write is the death of the process at that step.
* The throttle, the rate limit and the send loop read integer clocks handed to them.
* `NoLoss` needs no assumption about the server beyond truthful validated 200 answers:
  400, 413, 429, 5xx, lost and garbled answers are arbitrary. `Reconciled` additionally
  assumes that ids, up to letter case, name one event each.
* An honest run is one against the modelled server: a batch is committed only when its body
  is within 4 MiB, the guard finds no foreign `instance_id` in it, and its values fit the
  columns; a 413 answers only a larger body, a 400 never answers a well-formed batch, and a
  200 that validates is a response the server made. Every other answer, loss, delay,
  repetition and kill is still arbitrary. The instance of the key and the columns stay the
  same during a run. INTEGER and BIGINT ranges and the two CHECK constraints are spelled out;
  which texts, documents and instants the database takes is an arbitrary function of the row.
* So an event is one of three things. It is acceptable (the verdict accepts it, its instance
  and its values fit, and it fits into a request), refusable (the verdict refuses it and its
  instance fits, or it is too large for any request), or blocked (every batch with it is
  answered 403 or 503). The documentation calls 503 a temporary storage failure to be retried
  (docs/design.md:230); the code answers it also, and on every retry, for a batch with one
  value that its checks accept and its columns cannot hold.
* The receiver lower-cases ids while the failed journal keeps them as written; statements
  that compare the two say so.

## Model

| member | source | states |
|---|---|---|
| System.NoLoss | sender/src/daemon.ts:267-441 | At every point of every run (any interleaving of recording, sending, commits, lost, late, garbled or repeated answers, kills at any byte of any file step, and restarts that may themselves be killed) the directory opens, and every event whose `appendMany` returned is pending, stored, or in the failed journal; no id has two failed records, the recorded count is the number of events ever recorded, and the pending events are exactly the unsettled tail of them, in order. The only assumption on answers is that a 200 that passes validation is truthful. |
| System.StepKeeps | sender/src/daemon.ts:267-441 | Every step of the protocol keeps the invariant behind `NoLoss`: memory agrees with disk, the split plan fits the queue, the request in flight is a prefix of the queue, and every settled event is accounted for. |
| System.RunKeeps | sender/src/daemon.ts:190-236 | The invariant holds in every state of every run from an empty directory and empty tables. |
| System.AnswerSound | sender/src/daemon.ts:321-441 | With a truthful answer the reaction settles the whole batch or none of it, quarantines or finds stored everything it settles, and keeps the plan. |
| Blocking.DrainableExactly | sender/src/daemon.ts:190-236 | In every state of every honest run, whatever was lost, killed or halted before: when no pending event is blocked there is a continuation after which nothing is pending, and when ids name one event each, such a continuation exists only then. |
| Blocking.BlockedNeverLeaves | src/auth/api-key.guard.ts:43-69 | However an honest run goes on, with restarts, retries and further recording, a blocked event and everything recorded behind it stay in the queue. |
| Blocking.QuantityBlocks | src/database/migrations/1757310000000-Init.ts:42-42 | A purchase whose quantity the payload check accepts blocks the queue exactly when the quantity exceeds the INTEGER column. |
| Blocking.InstanceBlocks | src/auth/api-key.guard.ts:54-67 | A valid event blocks the queue exactly when the key is mapped to another instance than the event's, up to letter case. |
| Blocking.NotAlwaysDrainable | src/ingestion/ingestion.service.ts:71-88 | Two concrete runs after which no continuation ever drains the queue: one recorded sale of 2147483648 pieces, and one recorded sale of an instance that is not the key's. |
| Progress.Drainable | sender/src/daemon.ts:190-236 | The continuation of a queue without blocked events, constructed; when ids name one event each, exactly the acceptable recorded events are then stored and exactly the refusable ones are in the failed journal. |
| Progress.AnswersShorten | sender/src/daemon.ts:321-441 | In every honest run, an answer that is 413 or a trustworthy 200 takes exactly the batch in flight off the queue, and any other answer leaves the queue as it is. |
| Progress.NeverSplit | sender/src/daemon.ts:389-410 | In every state of every honest run the split plan of a running sender is empty, and a request over the server's limit is a single event: the server's 413 never splits a batch. |
| Progress.OneRound | sender/src/daemon.ts:267-441 | From every idle sender without blocked events, the request, then the 413 or the commit with its own response, and the answer are possible, and take exactly the head batch off the queue. |
| Progress.TooLargeIsSingle | sender/src/outbox.ts:193-205 | A head batch under the sender's 3 MiB cap that the server's 4 MiB limit refuses is a single event. |
| Reconciliation.Reconciled | sender/src/outbox.ts:223-275 | Against the modelled server no event is both stored and failed; an event that is no longer pending is stored exactly when it is acceptable and failed exactly when it is refusable, and a blocked one is always pending. |
| Reconciliation.QuarantinedRefusable | sender/src/daemon.ts:323-410 | Whatever an honest answer sends to quarantine is refusable: a rejection the server made, of an event that passes its guard, or an event too large for any request. |
| Admission.NewRowsFit | src/ingestion/ingestion.repository.ts:64-117 | Every event a storable batch adds fits its columns in both tables, also when its order was taken. |
| Admission.FittingIsStorable | src/ingestion/ingestion.repository.ts:64-117 | A batch whose accepted events fit can be stored whatever the tables hold. |
| Reconciliation.CountsReconcile | src/ingestion/ingestion.repository.ts:43-126 | Once nothing is pending, stored rows plus failed ids equal the number of distinct events recorded. |
| Reconciliation.NothingInvented | src/ingestion/ingestion.repository.ts:43-126 | In every state of every run the failed journal holds only recorded events, every stored row is the accepting verdict on a recorded event with that id, and the two tables are sound together. |
| RecordedTables.RowIsVerdict | src/ingestion/ingestion.repository.ts:47-77 | In every run, when ids name one event each, the row of a stored recorded event is exactly the verdict on that event. |
| RecordedTables.RowsOfDrained | src/ingestion/ingestion.repository.ts:43-126 | Once nothing is pending, the rows are exactly the verdicts on the acceptable recorded events, and the purchases are sound for them. |
| RecordedTables.RecordedDecidesTables | src/ingestion/ingestion.repository.ts:43-126 | Two honest runs, however different, that recorded the same events and have nothing pending end with the same event table, and with the same revenue per currency when an order fixes its amount. |
| Reporting.RecordedDecidesReports | src/metrics/metrics.repository.ts:126-252 | Two such runs show the same DAU, unique users, retention and engagement, in whatever order the rows of their tables are read. |
| Reporting.RecordedDecidesSales | src/metrics/metrics.repository.ts:262-415 | When an order fixes who bought when for how much, they also show the same revenue of every day and of the period and the same conversion, although different events may have won an order. |
| Reporting.ListingsSumAlike | src/metrics/metrics.repository.ts:262-303 | The sum over any selection of the sales does not depend on the order in which they are read. |
| Reconciliation.ServerAnswersTruthfully | src/ingestion/ingestion.service.ts:71-105 | In every reachable state a reply the server really made for the request in flight, however late, is truthful about the tables now. |
| Reconciliation.AnswerAlwaysPossible | sender/src/daemon.ts:336-336 | With a truthful answer `confirm` is never asked for more than is pending, so the count check in `confirm` never fires in a run. |
| Disk.AtomicWriteKilled | sender/src/outbox.ts:482-493 | A kill during tmp-write and rename leaves the old document or the new one, never a mixture, and touches no other file. |
| Disk.AppendKilledAt | sender/src/outbox.ts:505-513 | A kill during an append leaves the old bytes followed by some prefix of the new ones. |
| Disk.KilledInStages | sender/src/outbox.ts:413-443 | A kill in a sequence of file steps falls into its first part, or into the second part after the first completed. |
| Recovery.OpenKilled | sender/src/outbox.ts:89-134 | For every directory whatsoever, sound or damaged: killing `open` anywhere leaves a directory from which the next open recovers the same queue, or refuses with the same error. |
| Recovery.RepeatedlyKilledOpen | sender/src/outbox.ts:456-480 | The same after any number of killed opens in a row. |
| Recovery.OpenDone | sender/src/outbox.ts:89-134 | An open that runs to its end leaves a repaired directory with the view it had before: no manifest, terminated journals, a checkpoint on an entry boundary. |
| Recovery.RepairDone | sender/src/outbox.ts:377-410 | Repair removes exactly the unterminated tail, never a terminated line, and repairing twice is repairing once. |
| Opening.RecoverCompaction | sender/src/outbox.ts:457-480 | Performs exactly the recovery steps for what the directory holds, and refuses an unusable manifest without touching a file. |
| Opening.TruncateIncompleteTail | sender/src/outbox.ts:377-410 | Cuts the file to its longest newline-terminated prefix, writes nothing when there is nothing to cut, and reports which of the two happened. |
| Opening.Prepare | sender/src/outbox.ts:96-99 | What open does before reading: finished compaction and two repaired journals, or a refused manifest and an untouched directory. |
| Opening.Restore | sender/src/outbox.ts:101-130 | From the journal lines and any checkpoint: the offset is trusted exactly when it is an entry boundary, else everything is resent with count 0; the confirmed count and the pending entries are those of that boundary. |
| Opening.EndsAreBoundaries | sender/src/outbox.ts:106-114 | The entry ends together with 0 are exactly the offsets at which some prefix of the journal lines ends. |
| Opening.EntryAgainstBoundary | sender/src/outbox.ts:116-129 | Filtering entries by `end <= offset` and `start >= offset` at a boundary splits the journal exactly there. |
| Opening.OpenedSync | sender/src/outbox.ts:89-134 | After a completed open, files and memory agree, and the queue is the one the directory held before the open. |
| Outbox.Outbox.Open | sender/src/outbox.ts:136-138 | Opens exactly when the view of the directory is sound, with that view as its contents and an exact failed-id cache; otherwise reports the error of the first failing stage. |
| Framing.SplitFrame | sender/src/outbox.ts:180-181 | A file written as newline-terminated lines determines those lines and its unterminated rest. |
| Framing.TailStartIsLongest | sender/src/outbox.ts:376-402 | The kept prefix is the longest one that is empty or ends in a newline. |
| Framing.AppendCut | sender/src/outbox.ts:62-68 | Cutting an append of lines at any byte leaves the old lines, a prefix of the new ones, and a torn rest. |
| Framing.BoundaryIsPrefix | sender/src/outbox.ts:106-114 | An offset is a boundary of exactly the prefix of lines that has that many bytes, and no boundary when there is no such prefix. |
| Codec.ReadStringRoundTrip | sender/src/outbox.ts:180-180 | Reading an escaped JSON string back gives the string, for every byte string. |
| JournalFiles.EncodeAllRoundTrip | sender/src/outbox.ts:178-191 | Decoding the lines of recorded events gives the same events, and no line contains a newline byte. |
| JournalFiles.EntrySpansLine | sender/src/outbox.ts:319-346 | Entries have contiguous byte ranges in file order, each spanning exactly its line and newline. |
| JournalFiles.LastNewline | sender/src/outbox.ts:396-396 | `lastIndexOf(0x0a)`: the last newline of a block, or none. |
| JournalFiles.RepairedLength | sender/src/outbox.ts:386-401 | The backward block scan finds the length of the longest newline-terminated prefix, for every block size. |
| JournalFiles.LoadJournal | sender/src/outbox.ts:319-346 | Succeeds exactly on a terminated file whose every line decodes, and then yields those events with contiguous start and end offsets. |
| JournalFiles.ScanFailedJournal | sender/src/failed-journal.ts:4-39 | For every file, block size and end bound the yielded ids, offsets and outcome are those of splitting the bounded prefix on newlines: it fails exactly when a malformed line or an unfinished rest is met. |
| JournalFiles.ScanData | sender/src/failed-journal.ts:18-33 | One block joined with the carried rest yields its finished records and carries the unterminated remainder. |
| OutboxModel.SyncedAccounting | sender/src/outbox.ts:156-167 | Offset = bytes of the confirmed lines, file size = offset + pending bytes, entries = confirmed + pending, recorded = base + entries, and opening the directory now would give this queue. |
| OutboxModel.AppendKilled | sender/src/outbox.ts:178-191 | A kill during `appendMany` leaves the old queue followed by a prefix of the interrupted call. |
| OutboxModel.CompactKilled | sender/src/outbox.ts:412-454 | Compaction is crash-atomic: killed between or inside any of its file steps, the directory opens to the same pending events, recorded count and failed ids; the old offset never meets the new journal. |
| OutboxModel.ConfirmKilled | sender/src/outbox.ts:208-221 | A kill during `confirm`, also inside the compaction it may start, leaves the queue before or after the confirmation. |
| OutboxModel.QuarantineKilled | sender/src/outbox.ts:246-268 | A kill or a failed write during `quarantine` leaves the old failed records and a prefix of the new ones, and the queue as it was. |
| OutboxModel.NewFailuresCover | sender/src/outbox.ts:227-275 | A quarantine that returns leaves a record for each of its events and, given distinct records, no second one for any id. |
| OutboxModel.CompactFacts | sender/src/outbox.ts:443-451 | Compaction keeps the pending events and the number ever recorded. |
| Outbox.Outbox.AppendMany | sender/src/outbox.ts:178-191 | The queue grows by exactly the events, in order; at every point a kill leaves the old queue and a prefix of the call. |
| Outbox.Outbox.PeekBatch | sender/src/outbox.ts:193-205 | Returns the longest head of the pending events that fits both caps (a single event always fits), and removes nothing. |
| Outbox.Outbox.Confirm | sender/src/outbox.ts:207-221 | Removes exactly the first count events and keeps the recorded count, compacting from 4 MiB on; an impossible count changes nothing; a kill leaves the old or the new queue. |
| Outbox.Outbox.CompactJournal | sender/src/outbox.ts:412-454 | Keeps the abstract queue; a kill at any point keeps exactly the same queue. |
| Outbox.Outbox.Quarantine | sender/src/outbox.ts:227-275 | Writes one record for each event whose id has none yet and returns how many; it fails exactly on a fault with something to write, at opening the file (then nothing is written) or after some bytes; then it refuses until reopened, and the directory is one a kill could have left. |
| Outbox.Outbox.SelectFailures | sender/src/outbox.ts:233-243 | Selects the first occurrence of every id that the failed journal does not hold, whatever the cache holds. |
| Outbox.Outbox.Close | sender/src/outbox.ts:277-281 | Closing touches no file and keeps the queue. |
| FailedCache.HasFailedId | sender/src/outbox.ts:367-374 | For every cache limit, the answer is membership of the id among the records on disk, up to the end bound while loading. |
| FailedCache.CacheFailedId | sender/src/outbox.ts:363-365 | Adds nothing but the id, never beyond the limit, and exactly when there is room; a counter and cache that were exact for some recorded ids are exact for these and a new one. |
| FailedCache.LoadFailedEventIds | sender/src/outbox.ts:348-361 | After loading, the counter is the exact number of distinct ids and the cache has size min(limit, distinct ids); a malformed or unfinished journal is refused. |
| FailedCache.CacheComplete | sender/src/outbox.ts:369-369 | When the counter does not exceed the cache size, the cache holds every id, so the early `false` is right. |
| FailedCache.ScanPrefixOf | sender/src/outbox.ts:355-356 | Scanning up to the offset of a yielded record yields exactly the records before it. |
| Batching.BodyLengthExact | scripts/send-events.ts:61-90 | The computed byte count is the length of the serialized body. |
| Batching.HeadIsLongest | scripts/send-events.ts:93-117 | The greedy head fits the caps and no longer prefix does. |
| Batching.ChunkEvents | scripts/send-events.ts:93-117 | The one-pass loop produces the greedy partition. |
| Batching.ChunksAdmissible | scripts/send-events.ts:92-117 | Chunks concatenate to the input, none is empty, each has at most 500 events and at most 3 MiB unless it is a single event. |
| Batching.ChunksMinimal | scripts/send-events.ts:92-117 | No contiguous partition under the same caps has fewer batches. |
| Draining.HandedOutIsChunks | sender/src/outbox.ts:193-221 | The batches handed out by repeated peek and confirm, across compactions, are exactly the chunks of the one-shot partition. |
| Ack.ValidateBatchResponse | scripts/send-events.ts:132-208 | The loop over the rejected entries accepts and refuses with the same reason as the specification. |
| Ack.Decide | sender/src/ack.ts:27-55 | By status: a 200 is confirmed exactly when its body is trustworthy, with in-range distinct rejected positions, and is otherwise sent again; 401 and 403 halt, 400 quarantines, 413 splits, 429 waits a positive time (the header's, when it is positive), and exactly the other statuses back off. |
| Ack.ValidateExact | scripts/send-events.ts:127-131 | The ordered checks accept exactly the trustworthy bodies: matching batch id, count equations, distinct in-range indexes, matching event ids, sound codes and messages. |
| Ack.PassedSplitsBatch | scripts/send-events.ts:160-205 | A response that passes splits the batch into distinct rejected positions and their complement, and stored + duplicate is the size of the complement. |
| Ack.ServerResponsePasses | src/ingestion/ingestion.service.ts:41-122 | Whatever the tables hold, the response built for a structurally valid batch passes the sender's validation. |
| Ack.RefusedIsListed | src/ingestion/ingestion.service.ts:46-58 | A position appears among the rejections exactly when its event is refused. |
| Ack.RejectionsAre | src/ingestion/ingestion.service.ts:46-58 | Rejections are listed in increasing position, each with the verdict on the event there. |
| Ack.BackoffShape | sender/src/backoff.ts:5-8 | The delay starts at 1 s, doubles until it would pass 30 s, and stays at 30 s. |
| SplitPlan.AdvanceSplitSegments | sender/src/daemon.ts:456-467 | For every count the result covers what the plan covered without its first count events (nothing beyond its end): later segments stay as they are, a cut one keeps its rest, and segments stay positive. |
| SplitPlan.SplitCurrentBatch | sender/src/daemon.ts:443-453 | Computes the split plan that `SplitKeepsRange` and `Refusal.Refused413` are about: two halves, the remainder of the segment, then the later segments. |
| SplitPlan.SplitKeepsRange | sender/src/daemon.ts:443-453 | A further 413 keeps the covered head range, keeps all segments within 1..500 and the queue, strictly lowers the sum of 2·size − 1, and makes the next batch smaller. |
| SplitPlan.AdvanceKeepsRange | sender/src/daemon.ts:455-467 | Settling a batch of the head segment removes exactly its events from the covered range and lowers the same sum. |
| Refusal.PermanentRefusal | sender/src/daemon.ts:389-410 | In any reachable state between batches, while every request is answered 413, a head batch of n events causes at most 2n − 1 requests, whatever is recorded and committed in between. At every point the settled events, one per answered request for a single event, are the first of the old queue and have failed records, and the queue is the rest of it followed by what was recorded since; once the plan is empty and nothing is in flight all n are settled. |
| Refusal.RequestsFollowPlan | sender/src/daemon.ts:190-236 | Along any such path the sizes of the answered requests are a run of refusals of the split plan in force, and queue and failed records move with them. |
| Refusal.Refused413 | sender/src/daemon.ts:389-410 | A 413 removes exactly the single event of a single-event request from the queue, with a failed record, and nothing otherwise; the plan is advanced or split accordingly. |
| Refusal.HeadIsQuarantined | sender/src/daemon.ts:389-410 | Such a path can always be followed to its end, where all n events have left the queue and have failed records. |
| SplitPlan.RefusedSegment | sender/src/daemon.ts:443-467 | For a plan of one segment of n events, refusals and what is left of the plan account for n, within 2n − 1 refusals. |
| DaemonModel.OnlyTheTailWaits | sender/src/daemon.ts:207-221 | A head batch waits only while it is the whole queue, below its cap and younger than one second. |
| DaemonModel.CheckpointMovesExactly | sender/src/ack.ts:27-55 | The checkpoint moves exactly on a trustworthy 200, on a 400, and on a 413 for a single event; the latter two quarantine everything they settle; only 401 and 403 halt sending; only a 413 or progress changes the split plan. |
| DaemonModel.ReactionKeepsPlan | sender/src/daemon.ts:321-441 | Every reaction settles the whole batch or nothing, quarantines only events of the batch, and leaves a plan within the remaining queue. |
| Daemon.SenderDaemon.constructor | sender/src/daemon.ts:112-120 | Starts from what the outbox recovered: the whole backlog is to be drained, and its batch window is already open. |
| Daemon.SenderDaemon.GenerateTick | sender/src/daemon.ts:165-186 | Records all generated events below the backpressure limit and none above it; the request in flight stays a prefix of the queue. |
| Daemon.SenderDaemon.NextBatch | sender/src/daemon.ts:190-236 | Shutting down, it ends the loop; halted, it sleeps 1 s; on an empty queue it clears the batch window and sleeps 50 ms; a batch that is not ready sleeps 50 ms without touching the throttle; an exhausted window sleeps until the next one; otherwise the request is the longest head under the current cap, and it is in flight. Window, readiness and throttle read the clock separately. |
| Daemon.SenderDaemon.OnNetworkError | sender/src/daemon.ts:304-319 | Queue, failed records and plan stay as they are; the retry counter and delay grow. |
| Daemon.SenderDaemon.OnResponse | sender/src/daemon.ts:321-441 | Applies exactly the transition of the ACK table to queue, failed records, directory, plan, retry counter, startup drain, batch window and quarantine count, and returns the wait of the table; after a failed quarantine nothing of this moves and the directory is one a kill during these steps could leave. |
| Daemon.SettledIs | sender/src/daemon.ts:323-355 | What settling does is one list of file steps, every failed record before the checkpoint, and the queue without the settled head. |
| Daemon.SenderDaemon.Settle | sender/src/daemon.ts:323-355 | Removes exactly the settled head from the queue, adds exactly its failures to the failed records, advances the plan by it, and resets retry counter and batch window exactly when something was settled; a failed quarantine moves nothing of this. |
| Daemon.SenderDaemon.NoteStartupDrainProgress | sender/src/daemon.ts:469-483 | Lowers the remaining startup backlog by what was settled, never below 0, and notes that amount. |
| Daemon.SenderDaemon.Stop | sender/src/daemon.ts:147-149 | Sets the flag on which the next turn of the loop ends it (`NextBatch`), and leaves everything else as it is, so that what is in flight is still answered. |
| Daemon.SenderDaemon.Finish | sender/src/daemon.ts:154-156 | Once the loop has ended and nothing is in flight, closes the outbox with queue, files and books as they are. |
| Daemon.SenderDaemon.SettleQueue | sender/src/daemon.ts:323-355 | Quarantine strictly before the checkpoint, on the outbox alone. |
| Refinement.Start | sender/src/daemon.ts:112-120 | Opening the outbox and starting the sender with a new throttle is the protocol step Open on the world that stands for the objects; an open that refuses is one killed at its end. |
| Refinement.Generate | sender/src/daemon.ts:165-186 | A completed `generateTick` is the step Record of the recorded events. |
| Refinement.Turn | sender/src/daemon.ts:190-236 | A turn of the send loop is the step Send of the same batch at an instant the throttle granted, or moves nothing. |
| Refinement.SendsPerWindow | sender/src/throttle.ts:6-10 | However starts, turns, answers and generation interleave, a sender restarted k times in an aligned window sends at most (k + 1)·L requests in it. |
| Refinement.Respond | sender/src/daemon.ts:321-441 | A handled response is the step Answer with the same directory and process afterwards; a failed quarantine is an Answer killed there. |
| Refinement.NetworkError | sender/src/daemon.ts:304-319 | A network error is the step Lose. |
| Reacting.ReactKilled | sender/src/daemon.ts:323-410 | A kill during a reaction leaves the whole batch pending with a prefix of its failures recorded, or the whole batch confirmed with all of them recorded. |
| Reacting.ReactDone | sender/src/daemon.ts:323-410 | A completed reaction leaves exactly the unsettled queue and the old failures followed by the new ones. |
| Ingestion.ValidateEvent | src/ingestion/ingestion.service.ts:128-199 | A refusal has a non-empty code and at most 200 characters of message, and carries an id exactly when the submitted id is a UUID string, and then that id; an accepted event has the lower-cased event and instance ids and a purchase exactly for `shop_purchase`. |
| Ingestion.ResponseCounts | src/ingestion/ingestion.service.ts:71-105 | received = accepted + rejected, accepted = stored + duplicate, and 0 <= order_duplicate <= stored, for every table state. |
| Ingestion.IngestKeepsTables | src/ingestion/ingestion.repository.ts:77-124 | Every batch keeps: each purchase belongs to a stored event with that purchase, and there is exactly one purchase per distinct order among the stored purchase events. |
| Ingestion.OneRowPerOrder | src/ingestion/ingestion.repository.ts:79-118 | Purchases hold exactly one row per distinct order id among the stored purchase events. |
| Ingestion.PurchaseKeyFree | src/ingestion/ingestion.repository.ts:100-114 | Stage 2 never meets an occupied primary key, at any of its rows. |
| Ingestion.ReplayChangesNothing | src/ingestion/ingestion.repository.ts:43-126 | A batch whose accepted events are all stored changes neither table. |
| Ingestion.IngestTwice | src/ingestion/ingestion.repository.ts:43-126 | After a batch all its accepted events are stored, so the same batch again changes nothing and stores nothing. |
| Ingestion.IngestStores | src/ingestion/ingestion.service.ts:60-93 | One batch stores every accepted id, keeps every old row, and adds only accepted events. |
| FirstWriteWins.StatementsAreSingly | src/ingestion/ingestion.repository.ts:47-118 | For events with distinct ids, all event inserts followed by all purchase inserts leave the tables that taking the events one at a time would leave. |
| FirstWriteWins.BatchIsSingly | src/ingestion/ingestion.service.ts:60-93 | A batch, with its in-batch deduplication and two statements, stores exactly what its accepted events taken one at a time, first write wins, would store. |
| FirstWriteWins.BatchesAreSingly | src/ingestion/ingestion.repository.ts:43-126 | The same for every series of batches: both tables are those of the accepted events taken singly in the order of delivery. |
| FirstWriteWins.ChunkingIrrelevant | src/ingestion/ingestion.repository.ts:43-126 | Two series that deliver the same accepted events in the same order leave the same two tables, wherever batches begin and end; no assumption on content is needed. |
| FirstWriteWins.FirstEventWins | src/ingestion/ingestion.repository.ts:64-77 | The row of a new event id is the first delivered event that has it. |
| FirstWriteWins.FirstPurchaseWins | src/ingestion/ingestion.repository.ts:79-118 | The row of a free order is the first newly stored purchase event that has it. |
| FirstWriteWins.OldRowsStay | src/ingestion/ingestion.repository.ts:64-117 | A row of either table, once there, never changes. |
| Ingestion.EffectivelyOnce | src/ingestion/ingestion.repository.ts:43-77 | For any sequence of batches (any chunking, order, repetition) covering events whose content is fixed by the id, the final event table is exactly the valid events. |
| Ingestion.ScheduleIndependentEvents | src/ingestion/ingestion.repository.ts:43-77 | Two such schedules of the same events end with the same event table. |
| Ingestion.ScheduleIndependentRevenue | src/ingestion/ingestion.repository.ts:79-118 | With content also fixed by the order id, two schedules end with the same total revenue per currency. |
| Receiver.IngestionRepository.InsertGameEvents | src/ingestion/ingestion.repository.ts:64-77 | A value that does not fit its column fails the statement as a whole; otherwise, row by row with first-row-wins, new ids are added, existing rows are kept, and the returned ids are the added ones. |
| Receiver.IngestionRepository.InsertPurchaseRows | src/ingestion/ingestion.repository.ts:102-117 | Likewise for purchases: an occupied order is skipped, an occupied primary key would be an error and cannot occur. |
| Receiver.IngestionRepository.StoreBatchRows | src/ingestion/ingestion.repository.ts:43-126 | Succeeds exactly when the database is available and the rows of both statements fit, and then both take effect; otherwise both tables are as they were, also when only the second statement fails. |
| Receiver.IngestionService.Ingest | src/ingestion/ingestion.service.ts:41-122 | The tables and the response are those of the batch specification; it answers 503, with both tables untouched, exactly when something was accepted and cannot be stored. |
| Receiver.CompareInstances | src/auth/api-key.guard.ts:43-69 | The loop lets a batch pass exactly when no event in it has a string `instance_id` other than the key's, up to letter case. |
| Receiver.Receive | src/ingestion/ingestion.controller.ts:25-34 | Guard, then service: a batch is counted exactly when the guard passes and what it accepts can be stored, and only then the tables change. |
| Receiver.Partition | src/ingestion/ingestion.service.ts:43-58 | The verdict loop yields the accepted events and the rejections, both in batch order. |
| Receiver.Deduplicate | src/ingestion/ingestion.service.ts:60-69 | The dedupe loop keeps the first event of every id, in order. |
| Limiter.FixedWindowThrottle.TryAcquire | sender/src/throttle.ts:31-43 | Zero takes a slot of the current aligned window; otherwise the wait is positive and ends exactly at the next window. |
| Limiter.GrantsPerWindow | sender/src/throttle.ts:6-10 | With a clock that never runs back: at most (k + 1)·L grants in an aligned window with k restarts in it, hence L without. |
| Limiter.GrantsPerInterval | sender/src/throttle.ts:6-7 | Without restarts, at most 2·L grants in any half-open interval of one window length. |
| Limiter.RateLimitStore.ConsumeSlot | src/auth/rate-limit.store.ts:34-55 | Counts the request in the window of its key, touches no other key, and refuses with a positive number of seconds. |
| Limiter.ReceiverCounts | src/auth/rate-limit.store.ts:40-47 | The stored count is the number of requests in the current window. |
| Limiter.AllowedExactly | src/auth/rate-limit.store.ts:34-49 | A request is allowed exactly while it is among the first max(1, limit) requests of its window: the first request of a window passes even with a limit of 0. |
| Limiter.ReceiverNeverRefuses | src/auth/rate-limit.store.ts:34-49 | With instant delivery and any constant clock offset, a receiver limit of 2·L allows every request of a sender that never restarts. |
| Limiter.RetryAfterWorks | sender/src/backoff.ts:14-19 | After a refusal, waiting the delay computed from the returned seconds, with any jitter, lands in a later window where the next request of the key is allowed (429 as in section 4 of RFC 6585, Retry-After seconds as in section 10.2.3 of RFC 9110). |
| Relational.LeftJoinKeepsRows | src/metrics/metrics.repository.ts:225-240 | A LEFT JOIN on a key of the right side never multiplies a left row. |
| Relational.ZeroFillBothIs | src/metrics/metrics.repository.ts:293-299 | Two LEFT JOINs on grouped relations keep one row per key, with the aggregate of each relation. |
| Engagement.SortTypesIs | src/metrics/metrics.repository.ts:480-480 | The ordered types are the requested ones, each as often as requested, ascending in any total order. |
| Metrics.DauByDayIs | src/metrics/metrics.repository.ts:126-154 | Every calendar day of the period has its row, with the number of distinct users who logged in that UTC day. |
| Metrics.UniqueLoginUsersIs | src/metrics/metrics.repository.ts:160-176 | The period total is the number of users with a login on some day of the period. |
| Metrics.DauQueryBounds | src/metrics/metrics.repository.ts:74-87 | No day's DAU exceeds the period's unique users, which never exceed the sum of the DAUs. |
| Metrics.ConversionByDayIs | src/metrics/metrics.repository.ts:334-376 | The numerator is the set of the day's active users who also paid that day, hence never above the denominator. |
| Metrics.ConversionTotalsIs | src/metrics/metrics.repository.ts:382-415 | The period numerator is the payers of the period who also logged in within it, hence never above the denominator. |
| Retention.RetentionByCohortIs | src/metrics/metrics.repository.ts:182-252 | Each day has its cohort size and, for n = 1, 7, 30, the number of its users who logged in exactly n days later, never above the cohort size. |
| Retention.JoinsKeepCohort | src/metrics/metrics.repository.ts:225-240 | The three LEFT JOINs keep one row per cohort user, and each finds exactly its own day. |
| Retention.CohortRowsAre | src/metrics/metrics.repository.ts:200-216 | The cohort rows are one per user whose first login ever falls into the period, with the day of that login. |
| Retention.CohortsPartition | src/metrics/metrics.repository.ts:200-208 | Every user who ever logged in belongs to exactly one cohort. |
| Retention.LateLoginMovesOnlyItsUser | src/metrics/metrics.repository.ts:200-208 | A login that arrives late leaves every other user's cohort alone and moves its own user only to an earlier day. |
| Retention.ShownRateIsFinal | src/metrics/metrics.service.ts:68-81 | A rate that is shown lies between 0 and 1, has a positive denominator, and cannot be changed by any login that occurs from now on. |
| Revenue.RevenueByDayIs | src/metrics/metrics.repository.ts:262-303 | The one row a day gets from the two chained LEFT JOINs holds the sum of what was sold that day in the currency and that day's active users. |
| Revenue.RevenueAddsUp | src/metrics/metrics.repository.ts:309-326 | The daily revenues add up to the period total. |
| Revenue.ArpuNearestCent | src/metrics/metrics.service.ts:301-314 | The printed value has exactly two fraction digits, and read back as cents is the nearest cent to revenue per user, half up; it is null exactly without users. |
| Engagement.EngagementByDayTypeIs | src/metrics/metrics.repository.ts:424-484 | One row per day and requested type from the two chained LEFT JOINs, by day and then by type in the order of the collation: the users who did the type and logged in that day, beside that day's DAU, which they never exceed. |
| Engagement.PagesAreRows | src/metrics/metrics.service.ts:268-273 | The first pages put together are the first rows, so enough pages give every row once and later pages are empty. |
| Daemon.SenderDaemon.ConfirmHead | sender/src/daemon.ts:336-340 | Confirms exactly count head events and updates the retry counter, the startup drain and the batch window as after progress; with nothing to confirm nothing changes. |
| DaemonModel.ProgressKeepsBacklog | sender/src/daemon.ts:469-483 | Progress moves events from remaining to drained and never changes their sum, the startup backlog. |
| Outbox.Outbox.CacheFailures | sender/src/outbox.ts:270-273 | After the records are on disk the loop leaves an exact counter and an exact bounded cache. |

## Left out

- HTTP transport, NestJS wiring, header and key checks of the guards, body parsing and logging: a response is a status, a body and a header value.
- JSON text beyond string escaping, and event fields beyond `event_id`: an event's other fields travel as one uninterpreted string, and how the receiver reads them is an input of the model (`Parser`).
- Letter case is that of ASCII letters, the only ones in a UUID.
- class-validator and class-transformer: whether an id is a UUID, whether the other fields and the payload have errors, and their messages, are inputs of `ValidateEvent`; its branches, codes and length limit are modelled.
- PostgreSQL locking, isolation and statement timeouts: a batch is one atomic step, or fails and changes nothing.
- Power loss: directory entries that were not synchronised may be reordered by a power failure; the model covers kills of the process, which is what the source claims. `fsync` therefore is no step.
- Opening or reading errors other than a missing file, and mistyped open flags: reads succeed.
- `writeAll`: the loop over partial writes is one append that may be cut at any byte.
- The `detail` fields of a failed record: one uninterpreted text per call stands for batch id, codes and time of quarantine.
- Statistics counters of the daemon other than the quarantined count, the stats timer, and slicing of sleeps.
- `generateTick` receives the generated events; the generator, its random rates and the log gate are not modelled.
- `round4` and every other floating-point ratio: numerators and denominators are stated instead, with 0 <= numerator <= denominator.
- Calendar text: days are day numbers counted from 1970-01-01, and parsing or printing of dates, the range limit of 366 days and the currency format check are not part of the model.
- Limiter.RetryAfterWorks: both clocks run at the same rate, as the source assumes.
- Configuration, seed and demo scripts, infrastructure and the integration harness.
