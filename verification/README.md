# Verified models of the Sela node backend

Dafny models of three parts of the repository whose state is hard to get right, with proofs
about every run of them.

**The job scheduler.** `DeliveryQueue` is one client's delivery queue as a step machine
split at the awaits of `processClientQueue`; a coroutine keeps the queue object it started
with, so `clearClientQueue` can detach it. `JobWaiters` is the bookkeeping of promises,
timers and counters. `JobQueueManager` is the object itself, with shared queue objects; each
of its methods is proved equal to a step of those machines for the client concerned, and
invisible to all other clients; the clean-up of stale queues is a step for every client. All
of them keep the invariants of both machines for every client. `OptimisticLock` is
`updateClient` split into WATCH, GET and EXEC, and `createClient` split into SET and SADD,
for any number of callers, `JobIndexes` the job records with their Redis indexes,
`Assignment` the choice of a client and `TimeoutSweep` a pass of the timeout monitor over
job lists (`JobLists`).

**The reward ledger.** `UptimePayout` goes from sessions over daily records to incremental
payment with failing transactions, and `PaymentSchedules` says how the pay depends on when
the payments happen. `ReferralTree` holds relationships, tier indexes and the
installation reward, `ReferralConfig` the tiers, `ReferralCap` uptime referral rewards under
the monthly cap. `RewardLedger` puts all sources of balances next to what the reconciliation
script recomputes, `RewardLaws` says what each operation pays, and `LedgerServices` holds the
methods that write and reconcile balances.

**Chunked transfer.** `Chunking` is the stream codec and the server's own split,
`BucketStore` the chunk store, `Upload` the concurrent, resumable uploader as a machine over
its awaits with the canister on the other side, `UploadProgress` its freedom from deadlock
and its termination, `UploadSuccess` and `UploadRetries` exactly when it can still succeed,
and `Download` byte ranges and token-driven streaming.

`Sums`, `Points`, `RedisSets` and `Wrappers` are shared vocabulary. Objects that the source
updates in place are classes; their methods are proved against step functions, and the
properties of whole runs are lemmas about those functions.

Amounts and minutes are reals, times are integers in milliseconds, Redis is maps and sets.
Every service method is one step unless said otherwise. The blockchain, delivery callbacks,
reads of a stream and the order of awaits are arbitrary inputs: each theorem holds for all of
them.

## What the proofs found

Where a promise fails, the model follows the code and the exact condition is proved.

- `create_file` means to trap and roll back on an error, but its `?` leaves the call first,
  so a failed call leaves a partial file (`BucketStore.FsStore.CreateFile`).
- A chunk that was stored but whose reply was lost needs room for a second copy of itself,
  because the limit is compared before the old copy is taken off. Near the limit an upload
  can get stuck for ever (`UploadRetries.LostReplyBlocksForEver`). So can every upload that
  is to become readonly, as the client library offers: if the reply of its commit is lost,
  the file is complete and every retry fails (`UploadRetries.ReadonlyUploadCanGetStuck`). Exactly when, for one call and
  with retries, say `UploadSuccess.CanSucceedExactly` and
  `UploadRetries.CanSucceedWithRetriesExactly`.
- The canister accepts chunks of any length up to the chunk size, but reads ranges as if all
  were full. In a full file ranges are answered right exactly when all chunks but the last
  are full (`Download.RangesAreRightExactly`); otherwise a range inside the file is refused
  (`Download.ShortChunkRefusesRange`) or answered with wrong bytes
  (`Download.ShortChunkServesWrongByte`). A small file that was filled behind a gap is
  answered as a success with an empty body (`Download.GapIsServedEmpty`); what any full file
  streams back says `Download.StreamYieldsStored`.
- Shrinking a file is documented to delete its content
  (`ic-oss/src/ic_oss_types/src/file.rs:110`). The loop runs after `chunks` was set to zero, so
  the chunks stay (`BucketStore.UpdateFileAccounts`). A refill is miscounted exactly when it
  skips a left-over chunk; in ascending order it is not (`BucketStore.RefillCountsExactly`,
  `BucketStore.RefillInOrderCounts`, `BucketStore.RefillAfterShrinkMiscounts`).
- An upload of an empty file of announced size fails (`Chunking.TryReadAll`).
- Clearing a queue during a delivery loses a wakeup (`DeliveryQueue.ClearWhileDeliveringStrands`),
  exactly as `DeliveryQueue.StrandsExactly` says.
- A queue can hold one entry more than its limit (`DeliveryQueue.SizeBoundIsReached`), exactly
  when a failed delivery goes back into a full one (`DeliveryQueue.OverLimitExactly`).
- `createClient` is a SET and then a SADD, and looks at nothing. Logins that interleave with
  it leave a stale entry in the status index (`OptimisticLock.LoginBetweenWritesLeavesEntry`,
  `OptimisticLock.TwoCreationsLeaveEntry`). An entry is left exactly by a SET over another,
  listed status and by a SADD after the status has changed
  (`OptimisticLock.StepKeepsSoundExactly`, `OptimisticLock.IndexIsRightExactly`).
- A job created without a creator stays listed when it is deleted (`JobIndexes.EveryRun`,
  `JobIndexes.AnonymousJobStaysListed`), and blanking an assignee leaves a stale entry exactly
  as `JobIndexes.UpdateKeepsInvExactly` says (`JobIndexes.BlankedAssigneeStaysListed`).
- With a shared client id a job can go to another client than the chosen one
  (`Assignment.SharedIdMisassigns`), exactly when somebody with that id is enumerated before it
  (`Assignment.ChosenGetsTheJobExactly`); a timed-out job then stays listed exactly as
  `TimeoutSweep.AfterIsSweptExactly` says.
- The uptime bonus depends on when passes happen; the base does not. The difference is the
  drift of `PaymentSchedules.ScheduleDiffersByDrift`, with the one-pass case in
  `PaymentSchedules.EarlyPassSameBonusExactly` and an example in
  `PaymentSchedules.BonusDependsOnSchedule`.
- The two tier totals miss a month's first reward when it comes from tier 3 or above
  (`ReferralCap.EveryRunRespectsTheCap`).
- The reconciliation script also counts completed jobs that a user only created, and pays
  them out (`RewardLedger.EveryRunBalances`, `RewardLedger.ScriptPaysForeignWork`). A
  completed job that is completed again, reassigned, failed or deleted takes its old reward
  out of the ledger (`RewardLedger.StepMovesGap`).

## Model

| member | source | states |
|---|---|---|
| `Chunking.ReadFrames` | ic-oss/src/ic_oss/src/bucket.rs:509-529 | however the stream is cut into reads, the frames handed out by the codec are exactly the chunks that the server makes of the same bytes |
| `Chunking.ChunksRoundTrip` | ic-oss/src/ic_oss_bucket/src/api_update.rs:65-67 | the split of a content concatenates back to it, and all chunks are full except a shorter, non-empty last one |
| `Chunking.WellCutIsChunks` | ic-oss/src/ic_oss/src/bucket.rs:509-529 | any well-cut list of frames is the split of its concatenation: there is only one |
| `Chunking.ChunkAt` | ic-oss/src/ic_oss_bucket/src/api_update.rs:65-67 | chunk i exists exactly when its offset lies inside the content, and holds the bytes from there on |
| `Chunking.ChunksCodec.Decode` | ic-oss/src/ic_oss/src/bucket.rs:513-519 | takes a full frame off the buffer or leaves the buffer alone |
| `Chunking.ChunksCodec.DecodeEof` | ic-oss/src/ic_oss/src/bucket.rs:521-528 | hands out whatever is left, and nothing from an empty buffer |
| `Chunking.FramedRead.Next` | ic-oss/src/ic_oss/src/bucket.rs:509-529 | each call hands out the next frame of the remaining bytes and keeps the rest, whatever the pieces |
| `Chunking.TryReadAll` | ic-oss/src/ic_oss/src/bucket.rs:531-543 | succeeds exactly when the stream holds the announced, non-zero number of bytes, and tells the error cases apart |
| `BucketStore.PutChunkAccounts` | ic-oss/src/ic_oss_bucket/src/store.rs:1275-1339 | a stored chunk keeps `filled` equal to the bytes in the store and `chunks` one past the last, re-uploads included |
| `BucketStore.PutChunkExactly` | ic-oss/src/ic_oss_bucket/src/store.rs:1275-1339 | when a chunk upload is accepted, as conditions on the file before and the bytes counted after, and every field of the file that it leaves |
| `BucketStore.UpdateFileAccounts` | ic-oss/src/ic_oss_bucket/src/store.rs:1115-1194 | a metadata update keeps that count exact if and only if it does not shrink the file below its content |
| `BucketStore.UpdateFileExactly` | ic-oss/src/ic_oss_bucket/src/store.rs:1115-1194 | when a metadata update is accepted, and every field that it leaves: sizes of zero, digests kept, readonly files and hash conflicts included |
| `BucketStore.RefillAfterShrinkMiscounts` | ic-oss/src/ic_oss_bucket/src/store.rs:1146-1155 | a concrete shrink after which the old chunks are still stored and a complete refill is counted as incomplete |
| `BucketStore.PutChunkCountsExactly` | ic-oss/src/ic_oss_bucket/src/store.rs:1275-1339 | with left-over chunks a chunk upload keeps the count right if and only if it skips no left-over chunk |
| `BucketStore.RefillCountsExactly` | ic-oss/src/ic_oss_bucket/src/store.rs:1275-1339 | a whole refill, in any order, is counted right if and only if no upload in it skips a left-over chunk; once too low the count stays too low |
| `BucketStore.RefillInOrderCounts` | ic-oss/src/ic_oss_bucket/src/store.rs:1146-1155 | refilling in ascending order counts every byte, whatever the shrink has left behind |
| `BucketStore.FilledMeansComplete` | ic-oss/src/ic_oss_bucket/src/store.rs:1308-1334 | the byte count reaches the content length exactly when every chunk is stored in its place, and never exceeds it |
| `BucketStore.PrefixFits` | ic-oss/src/ic_oss_bucket/src/store.rs:1308-1330 | storing a missing chunk cannot overshoot the content length |
| `BucketStore.StoreNext` | ic-oss/src/ic_oss_bucket/src/store.rs:1275-1339 | the next chunk of a prefix is accepted when the content fits the limit, and extends the prefix |
| `BucketStore.FsStore.StoreChunks` | ic-oss/src/ic_oss_bucket/src/api_update.rs:65-67 | stores all chunks exactly when the content fits; otherwise the chunks that did fit remain |
| `BucketStore.FsStore.CreateFile` | ic-oss/src/ic_oss_bucket/src/api_update.rs:46-94 | succeeds exactly when size, limit and status allow it, then holds the whole content; a failed call leaves a described partial file, because its `?` returns before the trap |
| `BucketStore.FsStore.GetFullChunks` | ic-oss/src/ic_oss_bucket/src/store.rs:1229-1273 | hands out the stored chunks joined, whatever their sizes, if the file is full, has no gap and as many bytes as its size; nothing otherwise |
| `BucketStore.FullChunksExactly` | ic-oss/src/ic_oss_bucket/src/store.rs:1229-1273 | with right counters that is: exactly if the file is full and has no gap |
| `BucketStore.HoldsExactly` | ic-oss/src/ic_oss_bucket/src/store.rs:1275-1339 | a file holds a content in the chunks of its own split if and only if the content is what is stored and all chunks but the last are full |
| `Download.DetectRangeIsClampedSelection` | ic-oss/src/ic_oss_bucket/src/api_http.rs:314-373 | a range is served exactly when one satisfiable range is asked for and the condition holds; it is the longest allowed start of what the range selects; the whole file is served exactly when no range is asked for (section 14.1.2 of RFC 9110) |
| `Download.PieceEnds` | ic-oss/src/ic_oss_bucket/src/api_http.rs:381-396 | the pieces of successive chunks meet without gap or overlap, from `start` to `end` |
| `Download.PieceIsMissing` | ic-oss/src/ic_oss_bucket/src/api_http.rs:398-405 | a chunk that is missing or too short lacks a byte of the range |
| `Download.PieceIsFound` | ic-oss/src/ic_oss_bucket/src/api_http.rs:407-407 | each piece extends the body by exactly the bytes found at the next positions |
| `Download.RangesAreRightExactly` | ic-oss/src/ic_oss_bucket/src/api_http.rs:375-442 | in a full file every range is answered, and with the right bytes, if and only if all chunks but the last are full; if one is not, some byte of the file is refused |
| `Download.ShortChunkRefusesRange` | ic-oss/src/ic_oss_bucket/src/store.rs:1282-1292 | two accepted chunks that fill a file which streams back whole and refuses a range inside it |
| `Download.ShortChunkServesWrongByte` | ic-oss/src/ic_oss_bucket/src/api_http.rs:381-407 | two accepted chunks that fill a file of which a range is answered with a wrong byte |
| `Download.FollowYieldsRest` | ic-oss/src/ic_oss_bucket/src/api_http.rs:36-49 | following `next` tokens yields the remaining chunks, each once, in order, whatever their sizes, and ends; it traps exactly at a gap |
| `Download.StreamYieldsStored` | ic-oss/src/ic_oss_bucket/src/api_http.rs:256-279 | a full file streams back as all its stored bytes, whatever the chunk sizes; with a gap a small file comes out empty and a large one stops there |
| `Download.GapIsServedEmpty` | ic-oss/src/ic_oss_bucket/src/api_http.rs:256-264 | an accepted chunk behind a gap that fills a file; the answer is a success with an empty body |
| `Download.ReadableIsServed` | ic-oss/src/ic_oss_bucket/src/api_http.rs:174-301 | a file uploaded from its content is answered right however it is asked for: refused, the exact part, or the whole content in one body or several |
| `Download.BucketHttp.CollectPieces` | ic-oss/src/ic_oss_bucket/src/api_http.rs:387-408 | collects the bytes found at positions start..=end, or nothing when one of them is not found, for any file |
| `Download.BucketHttp.RangeResponse` | ic-oss/src/ic_oss_bucket/src/api_http.rs:375-442 | 206 with those bytes if all are found, 416 otherwise, for any file |
| `Download.BucketHttp.HttpRequest` | ic-oss/src/ic_oss_bucket/src/api_http.rs:174-301 | the answer to any request on any file, full or not: 404, 422, 416, 206 or 200, with body and token; what it is worth say the lemmas above |
| `Upload.UploadChunksIsCorrect` | ic-oss/src/ic_oss/src/bucket.rs:347-497 | over every interleaving and any chunks to exclude: permits are respected, reported chunks are stored with the right bytes unless they were excluded without being stored, `filled` counts excluded and new chunks; if the excluded chunks were stored, the commit call is made only with every chunk in place, and success means the whole content and its own digest |
| `Upload.ScheduleKeepsInv` | ic-oss/src/ic_oss/src/bucket.rs:347-497 | the invariant behind it, kept by every schedule, stray calls and retries included |
| `Upload.DrainedMeansComplete` | ic-oss/src/ic_oss/src/bucket.rs:461-475 | a finished loop and a drained channel imply that every chunk is stored |
| `Upload.CommitSucceeds` | ic-oss/src/ic_oss/src/bucket.rs:477-487 | an accepted commit leaves a readable file with the digest of its content |
| `Upload.UploadThenDownload` | ic-oss/src/ic_oss/src/bucket.rs:298-345 | whatever was uploaded with success is what a reader gets, by ranges or as a stream |
| `Upload.AfterRoundInv` | ic-oss/src/ic_oss_cli/src/file.rs:68-102 | the invariant holds after every round of the retry loop, whatever chunks the rounds exclude |
| `Upload.UploadFile` | ic-oss/src/ic_oss_cli/src/file.rs:54-102 | reports success only for a readable file with the right digest, and failure exactly when all 1 + retry rounds failed |
| `Upload.UploadSmall` | ic-oss/src/ic_oss/src/bucket.rs:308-333 | the one-call path succeeds exactly for a stream of the announced, non-zero size within the limit, with the content, its digest and the status asked for, and otherwise leaves nothing |
| `UploadProgress.NeverStuck` | ic-oss/src/ic_oss/src/bucket.rs:372-470 | no deadlock: however permits and channel slots are held, a running call has a next step |
| `UploadProgress.EveryCallEnds` | ic-oss/src/ic_oss/src/bucket.rs:372-470 | the number of steps of a call is bounded by a rank of its state |
| `UploadProgress.StepTakesRank` | ic-oss/src/ic_oss/src/bucket.rs:372-470 | every step that does something lowers that rank |
| `UploadSuccess.CanSucceedExactly` | ic-oss/src/ic_oss/src/bucket.rs:347-497 | from any state, a call can still succeed if and only if it has, or nothing has failed in it, the file is not readonly, it takes chunks or needs none, and every stored chunk that will be sent again has room for a second copy when it is sent as early as the permits allow |
| `UploadSuccess.ClosedForEver` | ic-oss/src/ic_oss_bucket/src/store.rs:1297-1308 | a file that was made readonly, or cannot take a chunk that it still needs, stays so, retries included |
| `UploadSuccess.BlockedForEver` | ic-oss/src/ic_oss_bucket/src/store.rs:1304-1321 | a stored chunk that is neither excluded nor counted, and for which `filled` plus its length exceeds the limit, blocks every schedule, retries included |
| `UploadSuccess.TightNeverSucceeds` | ic-oss/src/ic_oss/src/bucket.rs:372-470 | without that room no schedule of the call ends in success |
| `UploadSuccess.NewFileCanSucceed` | ic-oss/src/ic_oss/src/bucket.rs:335-345 | the upload of a new file within the limit can always succeed |
| `UploadSuccess.SuccessIsWhole` | ic-oss/src/ic_oss/src/bucket.rs:347-497 | success always means the whole content and its digest |
| `UploadRetries.CanSucceedWithRetriesExactly` | ic-oss/src/ic_oss_cli/src/file.rs:68-102 | from any state, in a call or after it, whatever has failed: with retries the upload can still succeed if and only if it has, or the file is not readonly, takes chunks or needs none, and no stored chunk that will be sent again lacks room for a second copy right now |
| `UploadRetries.ReadonlyUploadCanGetStuck` | ic-oss/src/ic_oss/src/bucket.rs:477-487 | every readonly upload within the limit has a run in which the whole file and its digest are in place, no chunk lacks room, and yet no schedule at all ends in success: the reply of its commit was lost |
| `UploadRetries.LostCommitBlocksForEver` | ic-oss/src/ic_oss_bucket/src/store.rs:1134-1138 | the step that leads there, from any state in which a readonly commit is due |
| `UploadRetries.LostReplyBlocksForEver` | ic-oss/src/ic_oss_bucket/src/store.rs:1304-1321 | a state that is reached when a reply is lost: content within the limit, nothing failed in the new call, and no schedule at all ends in success |
| `DeliveryQueue.EveryRun` | websocket_server/src/services/job_queue_manager.ts:102-164 | in every run each accepted entry is in exactly one place and, wherever it is, has been attempted at most max(1, priority + 6) times; no queue exceeds MAX_QUEUE_SIZE + 1 |
| `DeliveryQueue.RunKeepsInv` | websocket_server/src/services/job_queue_manager.ts:102-164 | the invariant behind it, for queues detached by clearClientQueue as well |
| `DeliveryQueue.ApplyMoves` | websocket_server/src/services/job_queue_manager.ts:61-84 | no step creates or loses an entry, id by id |
| `DeliveryQueue.InsertPlaces` | websocket_server/src/services/job_queue_manager.ts:73-79 | a new entry goes behind all it must wait for and before the first it may pass |
| `DeliveryQueue.WorkerStepProgress` | websocket_server/src/services/job_queue_manager.ts:119-154 | every event of the drain loop lowers the measure 2 * sum of max(1, p + 6) |
| `DeliveryQueue.DrainEnds` | websocket_server/src/services/job_queue_manager.ts:119-164 | between arrivals the loop ends within that many events and frees the lock, also for a detached queue; a queue still in the map is then empty |
| `DeliveryQueue.RetriesComeNext` | websocket_server/src/services/job_queue_manager.ts:131-148 | a failed delivery with retries left is the next to be delivered, ahead of all that waits and with one attempt more; without retries left it is dropped |
| `DeliveryQueue.DeliveryIsBooked` | websocket_server/src/services/job_queue_manager.ts:122-153 | an entry whose delivery ends is booked as delivered, put back, or dropped, the last exactly when it threw or failed at priority -5 or below |
| `DeliveryQueue.FrontIsNext` | websocket_server/src/services/job_queue_manager.ts:119-148 | what the worker does next: it stops at an empty queue, pauses after a reported result, and otherwise delivers the entry at the front |
| `DeliveryQueue.EnqueueAccepts` | websocket_server/src/services/job_queue_manager.ts:55-97 | an arrival is refused at fifty pending entries, is otherwise put in its place, and starts an idle client with the front of its queue |
| `DeliveryQueue.ClearDiscards` | websocket_server/src/services/job_queue_manager.ts:403-443 | clearing takes the queue out of the map, books what was pending, and leaves an entry under delivery with its worker |
| `DeliveryQueue.StrandsExactly` | websocket_server/src/services/job_queue_manager.ts:160-164 | a step strands entries exactly when it is the last event of a worker whose queue is detached and empty, while the queue in the map is not empty: a guard on the state before the step |
| `DeliveryQueue.NoLostWakeup` | websocket_server/src/services/job_queue_manager.ts:102-164 | in runs where no queue is cleared while its client is processed, an unlocked client has an empty queue |
| `DeliveryQueue.ClearWhileDeliveringStrands` | websocket_server/src/services/job_queue_manager.ts:403-417 | clearing during a delivery does lose a wakeup, for every state and every later arrival |
| `DeliveryQueue.EnqueueWakes` | websocket_server/src/services/job_queue_manager.ts:83-84 | the next accepted entry picks stranded ones up again |
| `DeliveryQueue.StaleCleanupDiscardsNothing` | websocket_server/src/services/job_queue_manager.ts:484-499 | exactly an empty queue, not processed and without a delivery for more than an hour, is removed, and no worker ever holds such a queue |
| `DeliveryQueue.OverLimitExactly` | websocket_server/src/services/job_queue_manager.ts:134-138 | a step takes a queue over its limit exactly when a failed delivery with retries left goes back into a full one |
| `DeliveryQueue.SizeBoundIsReached` | websocket_server/src/services/job_queue_manager.ts:134-138 | MAX_QUEUE_SIZE + 1 is reached: the put-back skips the size check |
| `JobWaiters.EveryRun` | websocket_server/src/services/job_queue_manager.ts:196-314 | in every run the counters count the waiting jobs, timers and entries correspond one to one, and each promise is settled exactly once when its entry leaves |
| `JobWaiters.GuardNeverBites` | websocket_server/src/services/job_queue_manager.ts:255-258 | the counter guard is always true when an entry leaves |
| `JobWaiters.LeaveSettles` | websocket_server/src/services/job_queue_manager.ts:246-314 | a promise is resolved only by a completion and rejected otherwise, and its entry and timer go with it |
| `JobWaiters.WaitRegisters` | websocket_server/src/services/job_queue_manager.ts:196-241 | a wait is registered with its own call, timer and count; a second one for the same job is rejected at once and leaves no trace |
| `JobWaiters.TimerIsRejection` | websocket_server/src/services/job_queue_manager.ts:210-221 | a firing timer does exactly what a rejection of its job does |
| `JobWaiters.RejectEachLaw` | websocket_server/src/services/job_queue_manager.ts:471-478 | a sweep removes exactly the listed jobs and keeps the invariant |
| `JobWaiters.DisconnectKeepsInv` | websocket_server/src/services/job_queue_manager.ts:419-433 | a disconnect leaves no waiting job of the client, and deleting its counter is exact |
| `JobWaiters.RunKeepsInv` | websocket_server/src/services/job_queue_manager.ts:196-314 | the bookkeeping invariant is kept by every operation |
| `JobQueueManager.ClientJobQueue.FindLower` | websocket_server/src/services/job_queue_manager.ts:74-74 | finds the place at which splicing or pushing equals insertion by priority |
| `JobQueueManager.ClientJobQueue.InsertByPriority` | websocket_server/src/services/job_queue_manager.ts:73-79 | splices or pushes in place, equal to the specified insertion |
| `JobQueueManager.JobQueueManager.QueueJobForClient` | websocket_server/src/services/job_queue_manager.ts:25-97 | accepts exactly below the limit, is the enqueue step for that client and invisible to all others |
| `JobQueueManager.JobQueueManager.EveryClientIsServedRight` | websocket_server/src/services/job_queue_manager.ts:102-164 | what all these methods keep, for every client of the object: no entry is lost, doubled or tried too often, no queue exceeds the limit by more than one, counters and timers are those of the waiters |
| `JobQueueManager.JobQueueManager.ProcessClientQueue` | websocket_server/src/services/job_queue_manager.ts:102-119 | takes the lock once and starts the loop on the queue object of the map |
| `JobQueueManager.JobQueueManager.Loop` | websocket_server/src/services/job_queue_manager.ts:119-163 | shifts the next job off the held queue object, or ends and frees the lock |
| `JobQueueManager.JobQueueManager.OnUndelivered` | websocket_server/src/services/job_queue_manager.ts:131-143 | puts back at the front with a lower priority, or drops with an event |
| `JobQueueManager.JobQueueManager.DeliveryEnds` | websocket_server/src/services/job_queue_manager.ts:122-153 | is the specified step for each of the three outcomes, on the held object even if detached |
| `JobQueueManager.JobQueueManager.DelayEnds` | websocket_server/src/services/job_queue_manager.ts:145-148 | resumes the loop after the pause |
| `JobQueueManager.JobQueueManager.ClearClientQueue` | websocket_server/src/services/job_queue_manager.ts:403-443 | empties and detaches the queue, rejects exactly the waiting jobs of the client, and returns the two counts |
| `JobQueueManager.JobQueueManager.CleanupStaleQueues` | websocket_server/src/services/job_queue_manager.ts:484-499 | is the stale-queue step for every client at once |
| `JobQueueManager.JobQueueManager.WaitForJobCompletion` | websocket_server/src/services/job_queue_manager.ts:196-241 | registers a waiter with its timer, or rejects a duplicate |
| `JobQueueManager.JobQueueManager.TimerFires` | websocket_server/src/services/job_queue_manager.ts:210-221 | removes the entry, decrements the counter and rejects |
| `JobQueueManager.JobQueueManager.ResolveJobCompletion` | websocket_server/src/services/job_queue_manager.ts:246-282 | settles the waiter once, as rejected when the logging throws |
| `JobQueueManager.JobQueueManager.RejectJobCompletion` | websocket_server/src/services/job_queue_manager.ts:287-314 | settles the waiter once, as rejected |
| `JobQueueManager.JobQueueManager.CleanupOrphanedJobs` | websocket_server/src/services/job_queue_manager.ts:455-479 | rejects exactly the jobs more than five minutes past their own timeout, or past five minutes if they have none |
| `OptimisticLock.EveryRunIsSerial` | websocket_server/src/db/database.ts:137-198 | over every interleaving of any callers and creations: records are the committed writes replayed in order, each field and the status being what the last write that carries it has put there; success means committed exactly once, giving up takes five foreign writes and leaves nothing; every client is listed under its status unless a creation is about to do that, and what else is listed was left behind by a creation |
| `OptimisticLock.ExecDecidesExactly` | websocket_server/src/db/database.ts:165-182 | an EXEC goes through if and only if nobody has written to the client since the WATCH; otherwise nothing is written, and the fifth time the call gives up |
| `OptimisticLock.OwnStepsLowerRank` | websocket_server/src/db/database.ts:143-191 | every call ends: each of its own steps lowers a rank of at most 28 |
| `OptimisticLock.NoStepRaisesRank` | websocket_server/src/db/database.ts:143-191 | and no step of anybody else raises it |
| `OptimisticLock.EndsAtRankZero` | websocket_server/src/db/database.ts:143-191 | at rank zero, and only there, a call has succeeded, given up, or found no client |
| `OptimisticLock.StepKeepsSoundExactly` | websocket_server/src/db/database.ts:96-100 | a step makes the status index list somebody wrongly if and only if it is a SET over another status that is listed, or a SADD after the status has changed |
| `OptimisticLock.IndexIsRightExactly` | websocket_server/src/db/database.ts:70-114 | over whole runs nobody is ever listed wrongly if and only if no such write happens, and then the index is exact whenever no creation is between its writes |
| `OptimisticLock.CreationEndsRightExactly` | websocket_server/src/db/database.ts:96-100 | whatever comes between the two writes of a creation, the user is listed right after the second if and only if it then has the status that it was created with |
| `OptimisticLock.SetStartsCreation` | websocket_server/src/db/database.ts:96-97 | the first write of a creation leaves nothing stale if and only if the user is new, keeps its status, or was not listed |
| `OptimisticLock.CreationKeepsIndexExactly` | websocket_server/src/db/database.ts:70-114 | a creation that nothing comes between keeps an exact status index exact if and only if the client is new or has that status already |
| `OptimisticLock.LoginBetweenWritesLeavesEntry` | websocket_server/src/db/service.ts:32-66 | a second login between the two writes of the first leaves the user active and listed under both statuses |
| `OptimisticLock.TwoCreationsLeaveEntry` | websocket_server/src/db/service.ts:32-66 | two logins that both create leave the user inactive and listed under both statuses |
| `OptimisticLock.RunKeepsInv` | websocket_server/src/db/database.ts:137-198 | the invariant behind it |
| `OptimisticLock.CommitKeepsInv` | websocket_server/src/db/database.ts:146-177 | an EXEC that goes through writes on top of the current record, because its watch is unspoilt |
| `OptimisticLock.ReplayWrites` | websocket_server/src/db/database.ts:154-154 | replaying the log leaves in each field the value of the last write that carries it |
| `OptimisticLock.BystanderStaysOk` | websocket_server/src/db/database.ts:145-147 | a write by somebody else spoils every other watch on that key and no other |
| `OptimisticLock.Database.UpdateClient` | websocket_server/src/db/database.ts:137-198 | succeeds in the first round without a foreign write; the patch then wins in its fields and all else is what the updates before it have left; fails after five touched rounds with no effect |
| `OptimisticLock.Database.Exec` | websocket_server/src/db/database.ts:155-165 | the fields and status of the patch win, all others stay, and the status index moves with the status |
| `JobIndexes.EveryRun` | websocket_server/src/db/database.ts:250-366 | in every run the state index is a full scan, user entries name creator or assignee, assignees and undisplaced creators are indexed, and a deleted job is still named exactly if it had no creator |
| `JobIndexes.UpdateKeepsInvExactly` | websocket_server/src/db/database.ts:319-366 | an update keeps the indexes exact if and only if it does not blank an assignee whose entry is not the creator entry |
| `JobIndexes.AnonymousJobStaysListed` | websocket_server/src/db/database.ts:883-892 | a job created without a creator is still listed after its deletion |
| `JobIndexes.BlankedAssigneeStaysListed` | websocket_server/src/db/database.ts:344-357 | a job whose assignee is blanked is still listed for that assignee, even once deleted |
| `JobIndexes.CleanupIsExact` | websocket_server/src/db/database.ts:949-1005 | a clean-up deletes exactly the jobs with a nonzero assignedAt below the cutoff |
| `JobIndexes.DeleteEachLaw` | websocket_server/src/db/database.ts:971-995 | deleting a list of jobs keeps the indexes and removes exactly those |
| `JobIndexes.RunKeepsInv` | websocket_server/src/db/database.ts:250-366 | the index invariant is kept by create, update, delete and clean-up |
| `JobIndexes.JobDatabase.CreateJob` | websocket_server/src/db/database.ts:250-296 | is the create step under which the indexes stay exact for fresh ids |
| `JobIndexes.JobDatabase.UpdateJob` | websocket_server/src/db/database.ts:319-366 | is the update step, and reports whether the job existed |
| `JobIndexes.JobDatabase.DeleteJob` | websocket_server/src/db/database.ts:864-909 | is the delete step, which leaves alone a job that does not exist |
| `JobIndexes.JobDatabase.GetJobsByState` | websocket_server/src/db/database.ts:368-390 | the indexed answer equals a scan by state |
| `JobIndexes.JobDatabase.GetJobsCreatedBefore` | websocket_server/src/db/database.ts:911-947 | finds every expired job once |
| `JobIndexes.JobDatabase.CleanupOldJobs` | websocket_server/src/db/database.ts:949-1005 | in batches of ten, leaves exactly the jobs that are not expired and counts the rest |
| `Assignment.ChosenIsBest` | websocket_server/src/db/service.ts:1164-1201 | a client is chosen exactly when one that is active, connected and below its capacity (three if none is stored) is listed; none has more spare capacity, or as much and more speed; of equals the first listed is chosen |
| `Assignment.SortPutsFirstBestFirst` | websocket_server/src/db/service.ts:1189-1199 | the sort is stable: the first of the best in the list comes first |
| `Assignment.SortIsSorted` | websocket_server/src/db/service.ts:1186-1199 | the sort is ordered by the comparator and a rearrangement of its input |
| `Assignment.OptimalGetsTheJob` | websocket_server/src/db/service.ts:1201-1204 | with unique ids the chosen client gets the job and nobody else changes |
| `Assignment.ChosenGetsTheJobExactly` | websocket_server/src/db/service.ts:1201-1204 | the chosen client gets the job if and only if no client ahead of it in the enumeration shares its client id; otherwise its list stays as it is |
| `Assignment.FoundExactlyIfFirst` | websocket_server/src/db/service.ts:191-203 | the look-up by client id finds a client if and only if it is the first with its id |
| `Assignment.SharedIdMisassigns` | websocket_server/src/db/service.ts:191-203 | a concrete pair of clients with one id, the job of the better going to the other |
| `Assignment.AssignmentsBalance` | websocket_server/src/db/service.ts:1151-1215 | over any number of assignments the spread of spare capacity in a reachable group never exceeds max(initial spread, 1) |
| `Assignment.NeverMoreThanTen` | websocket_server/src/db/service.ts:191-236 | no client ever holds more than ten active jobs, whatever capacity changes and ids |
| `Assignment.RecordsFollow` | websocket_server/src/db/service.ts:69-130 | a new client has ten places and no jobs, a finished job and nothing else leaves the list, and reports leave places and list alone |
| `Assignment.FoundById` | websocket_server/src/db/service.ts:191-203 | the look-up by client id finds the intended client when ids are unique |
| `Assignment.NodeService.AssignJobToClient` | websocket_server/src/db/service.ts:191-243 | gives the job to the first client with the id exactly if it has fewer jobs than its capacity (three if none is stored), with both records changed, and tells the two other outcomes apart |
| `Assignment.NodeService.FindOptimalNode` | websocket_server/src/db/service.ts:1151-1215 | returns the best client, and assigns through the look-up by client id |
| `Assignment.NodeService.UpdateClientCapacity` | websocket_server/src/db/service.ts:1440-1461 | accepts 1 to 10 for existing clients and nothing else |
| `TimeoutSweep.JobTimeoutMonitor.CheckForTimedOutJobs` | websocket_server/src/services/job_timeout_monitor.ts:63-195 | one pass makes exactly the ongoing jobs that some client lists and that were assigned more than an hour ago FAILED with no reward, and changes no other job; with unique ids every list keeps exactly what is pending or ongoing in time, and otherwise AfterIsSweptExactly says what it keeps |
| `TimeoutSweep.AfterIsSweptExactly` | websocket_server/src/services/job_timeout_monitor.ts:135-182 | a list comes out filtered if and only if its client is found by its id or lists no job that only this pass has failed |
| `TimeoutSweep.SweptJobsFail` | websocket_server/src/services/job_timeout_monitor.ts:63-195 | the specified job records: what expires fails, and nothing else changes |
| `TimeoutSweep.SweptListsLive` | websocket_server/src/services/job_timeout_monitor.ts:63-195 | the specified lists: what is pending or ongoing in time stays, and nothing else |
| `TimeoutSweep.JobTimeoutMonitor.Classify` | websocket_server/src/services/job_timeout_monitor.ts:86-133 | sorts a list into jobs to fail, jobs to take off, and the rest, exactly |
| `TimeoutSweep.JobTimeoutMonitor.FailEach` | websocket_server/src/services/job_timeout_monitor.ts:152-182 | makes exactly those jobs FAILED with no reward and takes them off the list of the client that the look-up finds; nothing if there is none |
| `TimeoutSweep.JobTimeoutMonitor.MarkJobAsFailed` | websocket_server/src/db/service.ts:413-475 | makes the job FAILED with no reward and filters the list of the first client with that id, and does nothing for an unknown id |
| `TimeoutSweep.RemainderIsAfter` | websocket_server/src/services/job_timeout_monitor.ts:135-182 | taking off dead entries first and failed ones second gives the specified list, also for jobs listed twice or by several clients |
| `TimeoutSweep.SweepIsIdempotent` | websocket_server/src/services/job_timeout_monitor.ts:63-195 | a second pass at the same time changes nothing |
| `TimeoutSweep.FilterSplits` | websocket_server/src/services/job_timeout_monitor.ts:136-141 | the filter keeps order and multiplicity and loses nothing it may keep |
| `UptimePayout.PayoutNeverOutrunsClock` | websocket_server/src/services/uptime_tracker.ts:133-229 | over every run the sessions of a user are pairwise disjoint and inside the elapsed time; 60000 times the daily minutes are the milliseconds of the finished sessions, and 60000 times the points paid are at most 0.6 times the milliseconds elapsed |
| `UptimePayout.EveryRecordIsPaidForItsMinutes` | websocket_server/src/services/reward_distribution_service.ts:429-493 | in every run each record has processed <= total, equality when processed, base 0.5 per processed minute, and a total equal to its confirmed transactions |
| `UptimePayout.EarningsAreConfirmed` | websocket_server/src/services/reward_distribution_service.ts:548-566 | from its registration on a client has earned exactly its confirmed transactions, in every run |
| `UptimePayout.AnyScheduleSameBase` | websocket_server/src/services/reward_distribution_service.ts:512-538 | any schedule of passes with failures that ends in a confirmed one pays exactly the base of a single final pass |
| `PaymentSchedules.ScheduleDiffersByDrift` | websocket_server/src/services/reward_distribution_service.ts:512-538 | any schedule that ends in a confirmed pass pays the base of a single final pass, and its bonus and total differ from that pass by the sum, over its confirmed passes, of the base paid times (the rate then minus the rate in the end); so the two agree if and only if that sum is zero |
| `PaymentSchedules.ExcessIsBaseTimesDifference` | websocket_server/src/services/reward_distribution_service.ts:518-521 | each term of that sum is the base paid times the difference of the two rates |
| `PaymentSchedules.EarlyPassSameBonusExactly` | websocket_server/src/services/reward_distribution_service.ts:512-538 | one pass before the last session leaves the bonus as it would be if and only if that session leaves the bonus rate as it was |
| `PaymentSchedules.SteadyRateBonus` | websocket_server/src/services/reward_distribution_service.ts:512-538 | while the rate stays, any schedule pays that rate on the base it has paid |
| `PaymentSchedules.SteadyRateAnySchedule` | websocket_server/src/services/reward_distribution_service.ts:512-538 | while the rate stays, the total does not depend on the schedule |
| `PaymentSchedules.BonusDependsOnSchedule` | websocket_server/src/services/reward_distribution_service.ts:512-538 | a concrete pair of schedules with different bonuses |
| `PaymentSchedules.RunIsEvents` | websocket_server/src/services/uptime_tracker.ts:178-229 | a run treats the record of each day as its own sequence of sessions and passes does |
| `PaymentSchedules.EveryRunDiffersByDrift` | websocket_server/src/services/reward_distribution_service.ts:429-493 | in every run a record paid in the end has received the base of all its minutes, and the total of a single payment plus the drift of its own schedule |
| `UptimePayout.AtTierIsProduct` | websocket_server/src/services/reward_distribution_service.ts:518-521 | the bonus is the base times the rate of the tier |
| `UptimePayout.SettlingKeepsRecord` | websocket_server/src/services/reward_distribution_service.ts:463-478 | a confirmed payment keeps the money of a record in step with its minutes |
| `UptimePayout.TierThresholds` | websocket_server/src/services/uptime_tracker.ts:403-410 | the tier found by the loop is given by thresholds on speed and ping, and each tier pays its configured bonus |
| `UptimePayout.AfterKeepsRecord` | websocket_server/src/services/uptime_tracker.ts:178-229 | sessions and passes in any order keep it, and the total is the sum of the sessions |
| `UptimePayout.DisjointTimeFits` | websocket_server/src/services/uptime_tracker.ts:35-67 | disjoint sessions fit into the time elapsed |
| `UptimePayout.RunKeepsInv` | websocket_server/src/services/reward_distribution_service.ts:429-493 | the ledger, clock and sum invariants are kept by every operation |
| `UptimePayout.PassSettles` | websocket_server/src/services/reward_distribution_service.ts:275-398 | a pass settles exactly the due records whose transaction is confirmed |
| `UptimePayout.NothingStaysDue` | websocket_server/src/services/reward_distribution_service.ts:401-426 | after a fully confirmed pass nothing is due |
| `UptimePayout.UptimeService.InitializeUptimeTracking` | websocket_server/src/services/uptime_tracker.ts:35-67 | overwrites the one active session of the user |
| `UptimePayout.UptimeService.FinalizeUptimeSession` | websocket_server/src/services/uptime_tracker.ts:133-172 | closes the session and adds its time, 60000 ms to the minute, to the record of the day it ends, which becomes due |
| `UptimePayout.UptimeService.UpdateDailyUptimeRecord` | websocket_server/src/services/uptime_tracker.ts:178-229 | adds the minutes to the record of the day, or creates it, takes the tier of this session and keeps what has been paid |
| `UptimePayout.UptimeService.GetUnprocessedDailyRecords` | websocket_server/src/services/reward_distribution_service.ts:401-426 | lists every due record once |
| `UptimePayout.UptimeService.ProcessUserReward` | websocket_server/src/services/reward_distribution_service.ts:429-493 | records half a point per minute not yet processed plus the bonus of the tier, and pays and settles exactly that if it is confirmed |
| `UptimePayout.UptimeService.RunRewardDistribution` | websocket_server/src/services/reward_distribution_service.ts:275-398 | is one payment per due record, reports skipped and failed exactly, and otherwise leaves nothing due |
| `ReferralTree.EveryRunKeepsTheTree` | websocket_server/src/services/referral_service.ts:103-212 | in every run stored chains are non-empty prefixes of the current ancestor walk within the depth of their day, tier indexes are exact and totalReferral is the size of the first |
| `ReferralTree.EveryRunRewardsOnce` | websocket_server/src/services/referral_service.ts:250-346 | in every run pending users are those whose period is pending, completion records exactly one reward to the parent, and a claimed reward is a recorded one |
| `ReferralTree.CompletedExactlyIfChecked` | websocket_server/src/services/referral_service.ts:250-346 | in every run a user is completed, and its parent rewarded, if and only if some check found it with the uptime that this check required |
| `ReferralTree.CheckCompletesExactly` | websocket_server/src/services/referral_service.ts:288-346 | a check completes a pending user exactly if it is a client with the hours required, 24 if none are configured, and then rewards its parent once |
| `ReferralTree.UptimeIsReported` | websocket_server/src/services/referral_service.ts:288-296 | the uptime that checks look at is the sum of what was reported |
| `ReferralTree.RunIsMonotone` | websocket_server/src/services/referral_service.ts:103-146 | parents and chains are write-once, and completion is final |
| `ReferralTree.NewChainIsOk` | websocket_server/src/services/referral_service.ts:134-155 | a chain built at registration fits, whatever cycle the new edge closes |
| `ReferralTree.BuildsAncestors` | websocket_server/src/services/referral_service.ts:134-155 | the chain starts at the parent, each next is the parent of the one before, and it stops only at the depth or where there is none |
| `ReferralTree.ClimbExtends` | websocket_server/src/services/referral_service.ts:134-155 | later registrations only extend ancestor walks |
| `ReferralTree.RunKeepsInv` | websocket_server/src/services/referral_service.ts:103-346 | the invariant behind both |
| `ReferralTree.ReferralService.BuildReferrerChain` | websocket_server/src/services/referral_service.ts:134-155 | the loop computes the parent and its ancestors up to the depth |
| `ReferralTree.ReferralService.IndexReferrers` | websocket_server/src/services/referral_service.ts:183-197 | puts the user into the index of each place of its chain |
| `ReferralTree.ReferralService.RegisterWithReferralCode` | websocket_server/src/services/referral_service.ts:103-220 | succeeds exactly for a code of an existing client and a user without a relationship; the new relationship is pending and has the ancestors up to the depth; nothing changes otherwise |
| `ReferralTree.ReferralService.Check24HourCompletion` | websocket_server/src/services/referral_service.ts:250-354 | completes a user exactly at the hours required, records the reward exactly for a parent and an unclaimed completion, and answers exactly whether it is rewarded, also when the payment throws |
| `ReferralCap.EveryRunRespectsTheCap` | websocket_server/src/services/referral_service.ts:448-641 | over any run: earned is the sum of distributed rewards, never above the cap, flagged exactly at the cap; the two tier totals add up to it if and only if the first reward came from tier 1 or 2 |
| `ReferralCap.EveryRunPaysUpToTheCap` | websocket_server/src/services/referral_service.ts:533-641 | a referrer receives in a month exactly the smaller of its uncapped shares and the cap configured at its first positive share, however they are spread over tiers, referees and payments and however the configuration changes |
| `ReferralCap.UptimeIsAnsweredExactly` | websocket_server/src/services/referral_service.ts:448-515 | nothing is paid below the weekly hours required, 100 if none are configured, or without a chain; otherwise exactly every enabled tier with a referrer gets its reward record |
| `ReferralCap.RunIsPaidUp` | websocket_server/src/services/referral_service.ts:813-927 | the invariant behind it, for the cap record as well |
| `ReferralCap.ThirdTierFirstIsUnbooked` | websocket_server/src/services/referral_service.ts:884-897 | a first reward of tier 3 is booked under neither total |
| `ReferralCap.RunKeepsInv` | websocket_server/src/services/referral_service.ts:813-927 | the invariant behind it |
| `ReferralCap.DistributeTiersIsOnePayment` | websocket_server/src/services/referral_service.ts:490-515 | one payment goes to members of the chain only, in rising tiers, and is never negative |
| `ReferralCap.UptimeRewards.UpdateMonthlyCap` | websocket_server/src/services/referral_service.ts:867-927 | changes the one cap record to the step under which no run exceeds the cap |
| `ReferralCap.UptimeRewards.DistributeUptimeReward` | websocket_server/src/services/referral_service.ts:533-641 | is the capped distribution step, and returns the amount that it recorded |
| `ReferralCap.UptimeRewards.CalculateUptimeReward` | websocket_server/src/services/referral_service.ts:448-525 | the loop over tiers is the specified distribution, answers exactly the enabled tiers with a referrer if the weekly hours are reached, and returns the total that it recorded |
| `ReferralConfig.AddTierLaw` | websocket_server/src/services/referral_config_manager.ts:275-297 | adding a tier keeps levels strictly increasing and puts exactly that tier at its level |
| `ReferralConfig.RemoveTierLaw` | websocket_server/src/services/referral_config_manager.ts:302-313 | removing a tier keeps the order and removes exactly that level |
| `ReferralConfig.EnabledIsOrdered` | websocket_server/src/services/referral_config_manager.ts:227-232 | the enabled tiers keep the order |
| `ReferralConfig.DefaultsAreSane` | websocket_server/src/services/referral_config_manager.ts:47-100 | the default tiers are ordered, sane and all enabled |
| `ReferralConfig.ReferralConfigManager.AddTier` | websocket_server/src/services/referral_config_manager.ts:275-297 | in place: levels stay strictly increasing, that tier is at its level, and all others are as before |
| `ReferralConfig.ReferralConfigManager.RemoveTier` | websocket_server/src/services/referral_config_manager.ts:302-313 | in place: exactly the tiers of other levels remain, still in order |
| `ReferralConfig.ReferralConfigManager.SetTierEnabled` | websocket_server/src/services/referral_config_manager.ts:318-324 | switches exactly the tier of that level |
| `Points.Round4IsNear` | websocket_server/src/services/referral_service.ts:546-546 | rounding to four places is off by at most half a unit and keeps the sign |
| `Points.ShareIsRounded` | websocket_server/src/services/referral_service.ts:732-732 | a share is the percentage of the points, to the nearest multiple of 0.0001 |
| `Points.RoundedIsUnique` | websocket_server/src/services/referral_service.ts:732-732 | there is only one such multiple |
| `RewardLedger.EveryRunBalances` | websocket_server/src/scripts/fix_race_condition_victims.ts:259-313 | in every run with fresh ids and completed jobs left alone, a balance is completed work plus confirmed uptime plus distributed rewards; the script expects more by exactly the completed jobs that the user created for others |
| `RewardLedger.StepMovesGap` | websocket_server/src/db/service.ts:338-381 | any step in any state moves balance minus ledger by the reward of the completed job it overwrites or removes, and by nothing else |
| `RewardLedger.RunKeepsInv` | websocket_server/src/db/service.ts:249-408 | the ledger invariant is kept by every operation |
| `RewardLedger.GrantsKeepGap` | websocket_server/src/services/referral_service.ts:768-775 | a list of rewards with free ids credits exactly what it records, one referrer at two tiers included |
| `RewardLedger.TaskGrantsExactly` | websocket_server/src/services/referral_service.ts:676-704 | a completed job grants exactly one share per enabled tier that has a referrer in the chain, and nothing else |
| `RewardLedger.TaskGrantsAreOnePayment` | websocket_server/src/services/referral_service.ts:676-704 | the rewards of one task have distinct tiers and members of the chain as referrers |
| `RewardLaws.CompletePays` | websocket_server/src/db/service.ts:249-408 | a completed job: 0.012 points per second to the worker, one distributed reward of the rounded share for each enabled tier with a referrer, each referrer paid the sum of its shares, no other reward and no other balance |
| `RewardLaws.PayReferralPays` | websocket_server/src/services/referral_service.ts:448-641 | an uptime payment: exactly the capped rewards for the stored chain are recorded and indexed, and each referrer is paid what was distributed to it |
| `RewardLaws.PayInstallationPays` | websocket_server/src/services/referral_service.ts:319-346 | an installation reward: 500 points to the parent, recorded and paid |
| `RewardLaws.PayUptimePays` | websocket_server/src/services/reward_distribution_service.ts:433-478 | an uptime payment is recorded with its outcome and paid exactly if confirmed |
| `RewardLaws.LoginPaysNothing` | websocket_server/src/db/service.ts:32-66 | a login opens an empty balance for a new client and touches none there is |
| `RewardLaws.ReferralPaysNothing` | websocket_server/src/services/referral_service.ts:103-220 | a referral stores the chain of a user that has none, and pays nothing |
| `RewardLaws.StartingPaysNothing` | websocket_server/src/db/database.ts:250-300 | adding and assigning a job writes that job and moves no balance |
| `RewardLaws.FailingPaysNothing` | websocket_server/src/db/service.ts:413-475 | failing and deleting a job writes that job and moves no balance |
| `RewardLedger.UptimeGrantsAreOnePayment` | websocket_server/src/services/referral_service.ts:490-513 | the rewards of one uptime payment have distinct tiers and members of the chain as referrers, and each credits what it records |
| `RewardLedger.IndexedJobsSplit` | websocket_server/src/scripts/fix_race_condition_victims.ts:268-273 | the jobs that the user index returns are the own work and the jobs created for others |
| `RewardLedger.IndexedRewardsAreOwn` | websocket_server/src/scripts/fix_race_condition_victims.ts:292-305 | the rewards found by index are those of the referrer |
| `RewardLedger.RepairLaw` | websocket_server/src/scripts/fix_race_condition_victims.ts:113-142 | in any state the script raises a short client to what it is due plus the jobs it created for others, leaves all other balances, and listing a client twice changes nothing |
| `RewardLedger.ScriptPaysForeignWork` | websocket_server/src/scripts/fix_race_condition_victims.ts:318-341 | on a ledger without errors the script pays out exactly the work that clients had others do for them |
| `LedgerServices.Ledger.UpdateJobCompleted` | websocket_server/src/db/service.ts:249-408 | looks the client up by its id; for the first client found the job is completed with 0.012 points per second, paid to its balance and taken off its list, every enabled tier with a referrer records, indexes and pays its rounded share, and nothing else is paid; nothing changes in the two error cases |
| `LedgerServices.Ledger.RecordCompletion` | websocket_server/src/db/service.ts:338-381 | the same for one client that was found |
| `LedgerServices.Ledger.CalculateTaskReward` | websocket_server/src/services/referral_service.ts:650-716 | the loop over tiers grants the specified rewards and returns their sum |
| `LedgerServices.Ledger.DistributeTaskReward` | websocket_server/src/services/referral_service.ts:722-804 | records, indexes and credits one reward |
| `LedgerServices.Ledger.PayUptimeReward` | websocket_server/src/services/reward_distribution_service.ts:433-478 | stores the transaction with its outcome and credits a confirmed one |
| `LedgerServices.Ledger.UpdateUserBalance` | websocket_server/src/services/reward_distribution_service.ts:548-566 | adds to the balance of a client that exists |
| `LedgerServices.Ledger.CalculateExpectedBalance` | websocket_server/src/scripts/fix_race_condition_victims.ts:259-313 | its three loops sum indexed completed jobs, confirmed transactions and indexed distributed rewards, each exactly once |
| `LedgerServices.Ledger.CheckUserDiscrepancy` | websocket_server/src/scripts/fix_race_condition_victims.ts:190-254 | reports the shortfall exactly when it is at least 0.01 either way |
| `LedgerServices.Ledger.CompensateClient` | websocket_server/src/scripts/fix_race_condition_victims.ts:123-140 | is the repair of one client: pays the shortfall exactly when it exceeds 0.01 |
| `LedgerServices.Ledger.CompensateClients` | websocket_server/src/scripts/fix_race_condition_victims.ts:113-142 | the loop over clients is the repair of each listed client in turn, recomputing what is expected before each |

## Left out

- Redis, WebSocket, HTTP, Express, cron, log and environment plumbing: only its effect is modelled, as map updates, steps and arbitrary outcomes.
- Interleavings inside a single ledger method: the source takes no lock there, and each such method is one step here.
- Binary floating point: amounts are reals, so the rounding of `Math.round` to four places is modelled and that of the arithmetic is not.
- The hash function: a digest stands for the bytes it was computed from, so collisions are not modelled.
- Permission checks, folders, custom metadata, HEAD requests, response headers and the hash index at file creation: they do not touch chunk contents. A hash conflict at commit is an arbitrary outcome.
- Fixed machine widths: the `u8` retry counter, the `u32` chunk index, the saturating subtraction that `BucketStore.PutChunkAccounts` shows never to saturate, and the absolute `MAX_FILE_SIZE` of `get_full_chunks`.
- Parsing of HTTP range headers and `to_satisfiable_range` of the hyperx crate, which is not part of this model; the latter follows section 14.1.2 of RFC 9110.
- Tokio's read loop is modelled from its documented behaviour: one non-empty piece per poll, then the end of the stream; a read error is a step of `Upload`, not of `Chunking.FramedRead.Next`.
- Event listeners of the queue manager that call it back, or that throw while a dropped job is announced: listeners are outside the file.
- Sortedness of the whole pending queue: it does not hold, because a failed delivery goes back to the front; `DeliveryQueue.InsertPlaces` states the order of each insertion.
- `getClientQueueStatus` and `getSystemQueueStatus`: they only report.
- Two clients sharing one watch connection: `OptimisticLock` takes a watch as belonging to one caller, as the comment in `updateClient` intends.
- TimeoutSweep.JobTimeoutMonitor.CheckForTimedOutJobs: takes the enumeration of clients as complete and without repetition, as KEYS gives it.
- The purchase index, job views and downloads, prices: independent of the indexes proved.
- Speed and ping samples: their averages are inputs of a finished session.
- `calculateActiveSessionRewards`, `getWeeklyUptimeData` and `getUptimeStats`: display, or reading daily keys under another name than they are written; `ReferralCap` starts from given points and minutes.
- Daily and weekly reward limits: configured, but never applied by the source.
- `importConfig`, `updateConfig`, `addRewardsToDB` and the migrations: they replace configuration wholesale or bypass the ledger.
- Upload.UploadChunksIsCorrect: when a caller excludes chunks that are not stored, says only what was newly stored; the canister does not check completeness at a commit that leaves the file writable.
- Creations by concurrent logins, and what comes between their two writes, are modelled in `OptimisticLock`; the other modules take a login as one step, which leaves an existing client alone.
- RewardLedger.EveryRunBalances: asks for fresh transaction and reward ids, payees that are clients, non-negative points, ordered tiers, and completed jobs left alone; `RewardLedger.StepMovesGap` says exactly what touching a completed job does. Reward ids are their parts, so that joining the parts with underscores is taken to be injective.
- `todaysEarnings` and `uptimeReward` of the ledger's clients: they are added to beside `balance` and never read by the reconciliation.
- Job prices in `updateJobCompleted`, and the blockchain calls after a referral reward is stored: they change neither balances nor rewards.
