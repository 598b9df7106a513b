# KafScale, modelled in Dafny

KafScale is a Kafka-compatible broker that keeps its log in an object store. This project models
its core and proves what the code guarantees over whole runs:

- **The partition log** (`pkg/storage`, `pkg/cache`, the produce, fetch and reopen paths of
  `cmd/broker`). A state machine whose steps are produces (an append and, for a synchronous one, a
  flush), reopens in any listing order, crashes, reads, prefetches and cache use by other
  partitions. Any upload may fail, also after the object was stored, and so may any offset write.
  Modules `Bytes` to `OffsetDeltas`, with `StoredNext`, `CachedReads`,
  `BufferLimits`, `IndexSpacing` and `BlockedReopens`; `PartitionLogObject` is the same code as objects with fields.
- **The group coordinator** (`pkg/broker/coordinator.go`, the parts of `pkg/metadata/store.go` it
  uses). A state machine over one group's memory and persisted record, with joins, syncs,
  heartbeats, leaves, cleanups, deletions, failed store calls and crashes. Modules `Sorting` to
  `GroupSessions`, and `GroupDeletion`; `CoordinatorObject` is the coordinator and its groups as objects.
- **The segment decoders** of the iceberg and sql processors, against the format the log writes,
  up to an end-to-end theorem over the log's runs. Modules `Readers` to `FramedRequests`. One model
  serves both decoders; a flag chooses 64-bit or 32-bit varints. `Bits` ties the words, masks and
  shifts of the varint loops to arithmetic.
- **The wire primitives** (`pkg/protocol/encoding.go`): `Wire`, `WireObjects`.
- **The S3 health window** (`pkg/broker/s3_health.go`): `S3Health`.
- **The snapshot publisher** (`pkg/operator/snapshot.go`): `Snapshots`.

The pattern is the same throughout. Pure definitions say what each operation does to a value;
theorems are about all runs of those definitions; classes and methods with loops have the form of
the source and are proved to compute the definitions. Clocks, random ids, checksums, and whether a
remote call fails and how, are parameters. `dafny verify dfyconfig.toml` checks everything.

What the code does that its comments or callers may not expect:

- The index search can miss the greatest entry at or below the offset and then falls back to the
  first entry. Reads stay correct and only fetch more (`ReadPath.FloorExactlyWhen`, `FloorMissed`).
- A client's negative last-offset delta is not checked. The next batch then takes offsets that were
  given before, and an acknowledged batch can be replaced and never read again
  (`OffsetDeltas.AcknowledgedThenGone`, with the exact condition in `UndisturbedExactlyWhen`). The
  run theorems are about batches whose delta is not negative.
- A segment object that has no index object blocks every later reopen (`BrokerFetch.BlocksReopens`).
  An index upload that failed before storing leaves one, and so does a segment upload that failed after
  storing, and no other (`BlockedReopens.IndexlessExactlyWhen`; a run in `ReopenRefused`).
- Of several batches in one request the broker numbers the first only. The processors decode the
  others at the offsets the client wrote into them (`FramedRequests.SecondFrameElsewhere`, with the
  exact condition in `AsAnsweredExactlyWhen`).
- The comment at `cmd/broker/main.go:1304` treats a timed-out fetch as empty. It is answered empty
  exactly at the next offset the store had given, 0 if it had given none, and out of range beyond it
  (`BrokerFetch.CancelledFetch`). The model follows the code.
- A store error that is not an outage makes a fetch at every offset but 0 out of range, also at
  offsets that are stored (`BrokerFetch.FetchBelowWatermark`).
- Loading a group marks every member as joined. That is right for a record written past preparing. From
  a record in PreparingRebalance a reload breaks the join barrier: the group completes with members who
  have not called JoinGroup in that generation (`GroupBarrier.BarrierBroken`, and who has called
  exactly in `CalledAfterReload`).
- A known member that rejoins a stable group with other topics gets no rebalance
  (`GroupTheorems.RejoinKeepsAssignment`). The in-memory store's clone drops timeouts
  (`GroupRecords.RestoreBuilt`).
- After a failed write and a crash a group works on an older generation again
  (`GroupLives.GenerationGoesBack`, and exactly when in `GenerationAfterCrash`); the record's own
  generation never goes back. A group that ended starts again at generation 1, where a member whose
  id is handed out anew may be told something else than before (`GroupLives.AnswersDiffer`, with the
  condition in `SyncAnswersAgree`).
- The 32-bit varint reader of the sql processor is right exactly on [-2^30, 2^30).
- A publish that loses a race can put back a definition another writer has just changed
  (`Snapshots.PutsBack`, with the exact condition in `CurrentExactlyWhen`).

## Model

| member | source | states |
|---|---|---|
| LogTheorems.AckedStaysReadable | pkg/storage/log.go:89-384 | Durability over all runs: a batch acknowledged by a synchronous produce is returned whole by an unlimited read at each of the offsets it was given, in every later state with an open log, through failed and ambiguous uploads, failed offset writes, crashes, reopens and any cache content |
| LogTheorems.AckedCoveredOnce | pkg/storage/log.go:233-274 | In every later state exactly one segment object, by its footer, covers an offset of an acknowledged batch |
| LogTheorems.AckedAscending | pkg/storage/log.go:171-198 | Acknowledged batches never share an offset; they are acknowledged in offset order |
| LogTheorems.AckedGrows | cmd/broker/main.go:552-580 | No later step takes an acknowledgement back |
| LogTheorems.AcknowledgedExactlyWhen | cmd/broker/main.go:552-580 | In any reachable state a produce is acknowledged if and only if it is synchronous and the flush that stores its batch, the append's own when the buffer is due and the explicit one otherwise, uploads both objects |
| LogTheorems.CleanRunTiles | pkg/storage/log.go:211-274 | Without failed uploads the segments tile [0, durable end) without gap or overlap, however offset writes fail and the broker crashes and reopens; the stored next offset is at most the durable end, and the durable end itself exactly as StoredNext.CurrentExactlyWhen says |
| LogTheorems.ReadsAgree | pkg/storage/log.go:315-384 | In every state of every run a read gives the same bytes or the same out-of-range error whether it hits the cache, downloads a range or downloads the segment |
| LogTheorems.ReadsBatches | pkg/storage/log.go:315-384 | A read is out of range exactly when no listed segment covers the offset; otherwise it is a prefix of whole consecutive batches from one at or below the offset, cut only by the byte limit |
| LogTheorems.LiveLookup | pkg/storage/log.go:317-334 | Any offset of a listed segment leads to that segment and to the index built for it |
| LogRuns.RunKeeps | pkg/storage/log.go:89-274 | The invariant of the partition holds in every state: objects are what was serialized, ranges are disjoint and ascending, the log lists exactly the live segments, the stored offset never passes the durable end, the cache is coherent |
| LogRuns.StepKeeps | cmd/broker/main.go:497-604 | Every single step, with any outcome of any upload and any write, keeps that invariant |
| LogRuns.OpenKeeps | cmd/broker/main.go:1431-1474 | Reopening, whatever its write does, keeps the invariant (what it leaves in the store is StoredNext.OpensExactlyWhen) |
| LogSteps.ProduceKeeps | cmd/broker/main.go:552-580 | Produce (append, then flush when synchronous) keeps it, and acknowledges only batches that are stored and indexed |
| LogSteps.AppendKeeps | pkg/storage/log.go:171-198 | After an append that reports success the batch is buffered or durable, never lost |
| LogSteps.NumberedKeeps | pkg/storage/log.go:171-183 | Numbering a batch with the next offset keeps the buffer contiguous |
| LogInvariant.FlushKeeps | pkg/storage/log.go:233-274 | A flush, whatever its uploads do, keeps objects and history in step, empties the buffer, and succeeds exactly when both uploads do |
| LogRecovery.RestoredExactly | pkg/storage/log.go:89-168 | Restoring gives exactly the stored segments in offset order, their parsed indexes and the next offset, for every listing order, or refuses exactly when an index object is missing |
| LogRecovery.RecoveredBases | pkg/storage/log.go:100-133 | Whatever order objects are listed in, recovery visits them in the order they were written |
| LogRecovery.StoredFooterParses | pkg/storage/segment.go:107-129 | A stored segment's footer and index object give back its range and its index entries |
| StoredNext.CurrentExactlyWhen | cmd/broker/main.go:1454-1470 | In every state of every run the stored next offset is the durable end if and only if nothing has been stored yet, or a write to the metadata store has taken effect since the last segment was stored |
| StoredNext.StoredAfterAck | cmd/broker/main.go:552-580 | In every run an acknowledged produce whose last write takes effect leaves the stored next offset right after its batch |
| StoredNext.OpensExactlyWhen | cmd/broker/main.go:1431-1474 | In every run an open succeeds if and only if the store and the objects can be read and every segment object has an index object; the log then lists every segment and continues at the durable end, and so says the store if the write takes effect |
| StoredNext.AckedIsFetched | cmd/broker/main.go:1281-1345 | What is acknowledged can be consumed: after an acknowledgement whose last write took effect a fetch at any offset of the batch returns it whole, in every later state with an open log, whatever failed or crashed in between |
| StoredNext.StepMoves | cmd/broker/main.go:552-580 | Every step leaves the durable end in the store if it stores what it has to and a write after that takes effect, and the old value otherwise; what is durable never shrinks |
| CachedReads.AckedIsCached | pkg/storage/log.go:233-274 | Right after an acknowledged produce a read at any offset of its batch needs no download, if the cache is on and the segment fits it |
| CachedReads.ReadCaches | pkg/storage/log.go:336-384 | A hit makes the segment the most recently used and loses no other; a segment that had to be downloaded whole is kept if it fits |
| CachedReads.MissIsRanged | pkg/storage/log.go:336-384 | In every reachable state a read that misses the cache downloads a range only and leaves the cache as it was |
| BrokerFetch.FetchAnswers | cmd/broker/main.go:1281-1345 | Without failed uploads, in every state and for every answer of the store: every answer but that for an unknown topic reports the next offset the fetch works with; it is out of range exactly when the fetch offset is beyond that, or negative and below it; backpressure exactly when the fetch is below it, the segment is not cached and downloads fail; and has records exactly when it is below it and succeeds |
| BrokerFetch.FetchReturns | cmd/broker/main.go:1281-1345 | In every state of every run the records are whole batches of the segment that covers the fetch offset, from one at or below it, cut only by the byte limit; without a limit the batch that holds the offset is among them |
| BrokerFetch.FetchBelowWatermark | cmd/broker/main.go:1281-1345 | So at every offset from 0 to the stored next offset no fetch is out of range while the store answers or is known to be out; after any other store error it is, exactly at the offsets above 0 |
| BrokerFetch.RestoreRefinesLive | pkg/storage/log.go:89-168 | Without failed uploads a restore rebuilds exactly the live segment list, index map and durable next offset, and drops only the buffer |
| BrokerFetch.ReopensExactlyWhen | pkg/storage/log.go:136-156 | In every state of every run a reopen succeeds if and only if every segment object has an index object |
| BrokerFetch.BlocksReopens | pkg/storage/log.go:136-156 | Once a segment object has no index object, no reopen succeeds in any later state, whatever the listing |
| BlockedReopens.IndexlessExactlyWhen | pkg/storage/log.go:233-274 | A flush under a new base offset leaves a segment object without an index object if and only if the index upload fails before storing or the segment upload fails after storing |
| BlockedReopens.ReopenRefused | pkg/storage/log.go:136-156 | A run into it: open, a produce whose index upload fails, a crash; then every reopen is refused, whatever the listing |
| OffsetDeltas.UndisturbedExactlyWhen | pkg/storage/log.go:171-274 | Two acknowledged produces on a drained log whose segments tile, the first with any header delta: the second leaves every earlier object, and which object covers which offset, alone if and only if the delta is not negative or the second batch is numbered below zero and reaches no stored offset |
| OffsetDeltas.AcknowledgedThenGone | pkg/storage/log.go:171-274 | From the first state, with concrete header bytes: a batch of delta -1 is acknowledged, then one of delta 0; both at offset 0. The only object left is the second, a read at 0 returns it, and no read at any offset contains the first |
| OffsetDeltas.ProducesAlone | cmd/broker/main.go:552-580 | On a drained log a successful synchronous produce stores its batch alone under the next offset and is acknowledged, whatever the delta |
| BrokerFetch.CancelledFetch | cmd/broker/main.go:1300-1345 | A fetch whose wait is cancelled comes back empty if and only if it asks for the next offset the store had given by then; beyond that it is answered out of range, although the comment there promises an empty fetch |
| PartitionLogObject.PartitionLog.constructor | pkg/storage/log.go:68-86 | A new log starts at the given offset with nothing listed |
| PartitionLogObject.PartitionLog.AppendBatch | pkg/storage/log.go:171-198 | The object's append is the append the run theorems are about: log, objects, cache, result and callback |
| PartitionLogObject.PartitionLog.Flush | pkg/storage/log.go:211-231 | Likewise for Flush and its callback |
| PartitionLogObject.PartitionLog.FlushLocked | pkg/storage/log.go:233-274 | Likewise for the drain, build and two uploads; a failed upload loses the drained batches |
| PartitionLogObject.PartitionLog.RestoreFromS3 | pkg/storage/log.go:89-168 | Likewise for recovery; a refusal leaves the log unchanged |
| PartitionLogObject.PartitionLog.Footers | pkg/storage/log.go:100-127 | The footer loop accepts exactly the listings whose candidates all have a footer |
| PartitionLogObject.PartitionLog.Indexes | pkg/storage/log.go:134-156 | The index loop gives ranges and entries for every segment, or ends as the first index object that is missing, refused or makes the parser panic |
| PartitionLogObject.PartitionLog.Read | pkg/storage/log.go:315-384 | The object's read, with its cache update, is the read the theorems are about |
| PartitionLogs.ReadPathIndependent | pkg/storage/log.go:315-384 | For a coherent cache every path gives the plain read of the stored object, or fails as unavailable |
| PartitionLogs.ReadKeepsCoherent | pkg/storage/log.go:336-384 | A read leaves only true copies of segments in the cache |
| PartitionLogs.FindSegment | pkg/storage/log.go:317-332 | The segment found covers the offset; none is found only if none covers it |
| ReadPath.FindIndexEntry | pkg/storage/log.go:485-512 | The binary-search loop terminates and computes the search that the next rows characterize |
| ReadPath.SearchNeverPast | pkg/storage/log.go:493-511 | The search never returns an entry past the offset |
| ReadPath.FloorExactlyWhen | pkg/storage/log.go:485-512 | The search returns the greatest entry at or below the offset if and only if that entry is first, last, hit exactly, or probed before its successor; otherwise it falls back to the first entry |
| ReadPath.FloorMissed | pkg/storage/log.go:485-512 | Offset 15 among 0, 10, 20, 30, 40: the search returns 0, not 10 |
| ReadPath.PathsAgree | pkg/storage/log.go:420-483 | The ranged download and the slice of a whole copy are the same bytes |
| ReadPath.SegmentRead | pkg/storage/log.go:420-483 | Inside a segment a read is the concatenation of whole batches from one at or below the offset, cut at the limit |
| ReadPath.SegmentReadCarries | pkg/storage/log.go:420-483 | Without a limit it contains the batch that holds the offset |
| Segments.BuildSegment | pkg/storage/segment.go:37-85 | The serialization loop yields header, batches in order, footer, message total and the index offered every batch, or the error for an empty list or payload |
| Segments.IndexOfSound | pkg/storage/segment.go:48-58 | The index built with a segment points only at batch starts, includes the first batch, and ascends |
| Segments.SegmentFooter | pkg/storage/segment.go:99-129 | The footer parsed from the end of a serialized segment is its last offset |
| Segments.SegmentHeader | pkg/storage/segment.go:87-97 | The header carries version, base offset, message total and creation time, each in its place |
| Segments.FooterRoundTrip | pkg/storage/segment.go:99-129 | Parsing inverts building of a footer |
| SparseIndex.IndexRoundTrip | pkg/storage/index.go:60-130 | Parsing inverts serialization of every index whose entries fit their fields |
| SparseIndex.ParseIndex | pkg/storage/index.go:89-130 | The parsing loop, with its refusals of short input, wrong magic, wrong version and truncated entries, and the panic of make on a negative count |
| SparseIndex.IndexBuilder.constructor | pkg/storage/index.go:36-41 | An interval that is not positive counts as 1 |
| SparseIndex.IndexBuilder.Add | pkg/storage/index.go:44-50 | The first batch and then one batch per interval of messages is indexed |
| IndexSpacing.IndexIsSpaced | pkg/storage/index.go:44-50 | The entries of a segment's index stand for the first batch and then exactly for the first batch after which at least an interval of messages has passed since the one before; what follows the last entry is shorter than that |
| SparseIndex.IndexBuilder.BuildBytes | pkg/storage/index.go:60-86 | The serialized index |
| RecordBatches.PatchRecordBatchBaseOffset | pkg/storage/recordbatch.go:42-45 | The in-place rewrite replaces the first eight bytes of the buffer by the base offset and nothing else |
| RecordBatches.PatchedReparses | pkg/storage/recordbatch.go:26-45 | Parsing a patched batch gives the old header fields with the new base offset |
| RecordBatches.NewRecordBatchFromBytes | pkg/storage/recordbatch.go:26-39 | A batch is refused exactly when it is shorter than 61 bytes |
| WriteBuffers.WriteBuffer.constructor | pkg/storage/buffer.go:42-47 | An empty buffer with zero counters |
| WriteBuffers.WriteBuffer.Append | pkg/storage/buffer.go:50-56 | Appending keeps the counters equal to the sums over the batches |
| WriteBuffers.WriteBuffer.Due | pkg/storage/buffer.go:59-78 | The checks of the source, one after the other, in the words of BufferLimits.FlushesExactlyWhen |
| BufferLimits.FlushesExactlyWhen | pkg/storage/buffer.go:59-78 | An append flushes if and only if with its batch the bytes, messages or batches reach a limit that is set, or the interval is set and has passed since the last flush |
| BufferLimits.BufferBounded | pkg/storage/log.go:171-198 | In every state of every run the open log's buffer is below every size, message and batch limit that is set |
| BufferLimits.FlushStamps | pkg/storage/buffer.go:81-91 | The interval counts from the last flush, successful or not, or from the opening of the log |
| WriteBuffers.WriteBuffer.Drain | pkg/storage/buffer.go:81-91 | Draining returns all batches in order and leaves an empty buffer stamped with the time |
| ObjectStore.MemoryS3.constructor | pkg/storage/s3_memory.go:34-39 | An empty store |
| ObjectStore.MemoryS3.UploadSegment | pkg/storage/s3_memory.go:48-53 | Stores one segment object and changes nothing else |
| ObjectStore.MemoryS3.UploadIndex | pkg/storage/s3_memory.go:55-60 | Stores one index object and changes nothing else |
| ObjectStore.MemoryS3.DownloadSegment | pkg/storage/s3_memory.go:62-83 | The object, or an inclusive byte range of it clamped to its length (section 14.1.2 of RFC 9110), or the error for a missing object or an empty range |
| ObjectStore.MemoryS3.DownloadIndex | pkg/storage/s3_memory.go:85-92 | The index object or a not-found error |
| ObjectStore.MemoryS3.ListSegments | pkg/storage/s3_memory.go:94-108 | Every segment object once, in some order |
| SegmentCache.LruRefinesHistory | pkg/cache/segment_cache.go:58-105 | Over every history of uses the cache holds exactly the retained keys, they are the most recently used ones in order, each has the bytes last stored under it, and together they fit the capacity |
| SegmentCache.RetainedMeans | pkg/cache/segment_cache.go:70-105 | A key is retained if and only if, since some store of it, no store made the keys used at least as recently as it, itself included, exceed the capacity; lookups lose none |
| SegmentCache.EvictedExactly | pkg/cache/segment_cache.go:97-105 | Eviction keeps an entry exactly when everything from the front up to it fits |
| SegmentCache.MakeKeyInjective | pkg/cache/segment_cache.go:53-55 | Cache keys of different topic, partition or base offset differ, even if a topic contains a colon |
| SegmentCache.Cache.constructor | pkg/cache/segment_cache.go:42-51 | An empty cache; a capacity that is not positive counts as 1 |
| SegmentCache.Cache.GetSegment | pkg/cache/segment_cache.go:58-67 | A hit returns the stored bytes and moves the key to the front; a miss changes nothing; list and map hold the same keys and size is the sum of lengths |
| SegmentCache.Cache.SetSegment | pkg/cache/segment_cache.go:70-95 | Storing puts the key in front with the new bytes and evicts from the back until the capacity holds |
| SegmentCache.Cache.EvictIfNeeded | pkg/cache/segment_cache.go:97-105 | Evicts least recently used entries first, no more than needed |
| GroupTheorems.ReachableGroup | pkg/broker/coordinator.go:126-405 | In every reachable state a group in memory has members, a leader among them, a phase among Preparing, Completing and Stable, assignments only when Stable and only for members, every member joined at the current generation past Preparing, and no partition held twice |
| GroupTheorems.GenerationsOnlyGrow | pkg/broker/coordinator.go:1106-1127 | While a group stays in memory its generation never decreases, and neither does its record's while that exists |
| GroupLives.GenerationAfterCrash | pkg/broker/coordinator.go:614-628 | Across a crash, in any run: the next request works on the record's generation, or starts over without one, and that is behind the generation that was in memory if and only if there is no record or its generation is behind |
| GroupLives.GenerationGoesBack | pkg/broker/coordinator.go:188-206 | A run in which it goes back: the write of the join that starts generation 2 is lost, the broker crashes, and the group is at generation 1 |
| GroupLives.SyncAnswersAgree | pkg/broker/coordinator.go:208-294 | Within one generation any two successful syncs of a member return the same bytes, through failed writes, deletions, crashes and reloads, if the group exists all the time between them or the member's id is not handed out anew between them |
| GroupLives.AnswersDiffer | pkg/broker/coordinator.go:208-294 | A run in which they differ: the only member leaves, which ends the group, and its id is handed out again in a new generation 1 |
| GroupLives.StaysAbsent | pkg/broker/coordinator.go:126-405 | A member that is neither in memory nor in the record stays away, whatever happens, until its id is handed out |
| GroupTheorems.AgreeWhileExisting | pkg/broker/coordinator.go:208-294 | The first half: the answers agree while the group exists |
| GroupBarrier.PastPreparingAllCalled | pkg/broker/coordinator.go:1139-1151 | The join barrier, in every state of every run, through crashes, reloads and failed or ambiguous writes: a group is past Preparing only if every member has called JoinGroup since the generation began, as long as the generation was not loaded from a record in PreparingRebalance |
| GroupBarrier.JoinedExactlyWhenCalled | pkg/broker/coordinator.go:126-206 | Under the same condition a member in memory counts as joined if and only if it has called JoinGroup since the generation began |
| GroupBarrier.CalledAfterReload | pkg/broker/coordinator.go:716-763 | What a crash does to the barrier, exactly: when a member of the record is the first to come back the group is past Preparing at once, and a member of it has called if and only if it is that one or had joined before the crash |
| GroupBarrier.BarrierBroken | pkg/broker/coordinator.go:716-763 | A run in which it breaks: a stranger's join starts generation 2 and waits, the broker crashes, the stranger calls again, and the group is past Preparing with the old member, who has not called in generation 2 |
| GroupBarrier.RunTruthful | pkg/broker/coordinator.go:638-763 | The invariant behind it: what memory says about who has joined is true, everybody in a record past Preparing has called, and a record of the current generation names no one who is gone from memory |
| GroupBarrier.StepMoves | pkg/broker/coordinator.go:126-405 | Every request, cleanup, deletion and crash keeps who counts as joined within a generation, but for the caller of a join, and every other member's topics, timeout and heartbeat; the record stays, goes or becomes that of the group in memory |
| GroupTheorems.JoinAnsweredNone | pkg/broker/coordinator.go:172-200 | A join answered NONE leaves the group past Preparing, so the barrier applies |
| GroupAnswers.JoinAnswer | pkg/broker/coordinator.go:126-206 | Every join of every run: the answer names the caller by its own id if it was a member and the fresh id otherwise, and leader, generation and protocol of the group in memory; NONE exactly past Preparing with the write done; the member list is there exactly for the leader past Preparing, with every member once, in id order, with metadata that reads back as its subscription; the caller counts as joined, with its topics, time and timeout, and the deadline of a rebalance is counted anew, or gone when the rebalance has just completed |
| GroupAnswers.AnsweredJoinAccepted | pkg/broker/coordinator.go:208-351 | After an answered join a sync or heartbeat with the answered member id and generation is never refused as unknown member or illegal generation, and the leader's sync after NONE succeeds |
| GroupAnswers.SyncAnswer | pkg/broker/coordinator.go:208-294 | Every sync of every run: each code exactly in its case, and the bytes are what a consumer parses as exactly what the member holds |
| GroupAnswers.OnlyLeaderAssigns | pkg/broker/coordinator.go:223-269 | In every run a sync changes the group exactly when it is the leader's own, in the current generation, after a rebalance has completed; then it makes the group stable with an exact cover |
| GroupAnswers.AnswersDisjoint | pkg/broker/coordinator.go:208-294 | What two members read out of the bytes they are answered in one generation never has a partition in common, through failed writes, crashes and reloads while the group exists |
| GroupAnswers.HeartbeatAnswer | pkg/broker/coordinator.go:296-351 | Every heartbeat of every run: each code exactly in its case, and one that gets as far as the store is noted |
| GroupAnswers.LeaveAnswer | pkg/broker/coordinator.go:353-405 | Every leave of every run: each code exactly in its case, the member and nobody else is gone, and the group is gone exactly if it was the last |
| GroupAnswers.LeaderSucceeds | pkg/broker/coordinator.go:1083-1095 | In every run the leader stays as long as it is a member, and is succeeded by the least id |
| GroupAnswers.WrittenSurvivesCrash | pkg/broker/coordinator.go:630-763 | After any request that reports success, and any cleanup whose write is done, a crash and a reload give the same group back, and one that ended does not come back |
| GroupSessions.SessionKeptExactlyWhen | pkg/broker/coordinator.go:1160-1201 | After the coordinator has heard from a member, and nothing since, a cleanup keeps it if and only if it comes no later than the session timeout after that and the member is not late for a rebalance |
| GroupSessions.RebalanceRuns | pkg/broker/coordinator.go:1106-1127 | In every run a rebalance that a leave or a cleanup starts runs for the group's own rebalance timeout, and a cleanup that starts none changes nothing |
| GroupSessions.LoadedDeadline | pkg/broker/coordinator.go:716-763 | A group loaded in the middle of a rebalance has its whole timeout again |
| GroupTheorems.ReloadedJoinIsReady | pkg/broker/coordinator.go:716-763 | After a reload from any record the first rejoin of any member is answered ready, whoever else is back: loading marks everyone as joined (what that breaks is stated by GroupBarrier.CalledAfterReload) |
| GroupTheorems.FirstJoinIsReady | pkg/broker/coordinator.go:126-206 | The first join of a new group is answered ready, with the caller as the only member and leader of generation 1 |
| GroupTheorems.RejoinKeepsAssignment | pkg/broker/coordinator.go:143-169 | A known member of a stable group that rejoins with other topics changes its subscription but starts no rebalance and keeps every assignment |
| GroupTheorems.SyncCoversExactly | pkg/broker/coordinator.go:248-259 | The leader's sync makes the group Stable with an exact cover of the collected partitions by the members subscribed at that moment |
| GroupRuns.RunKeeps | pkg/broker/coordinator.go:126-405 | The group invariant and its agreement with the persisted record hold in every state of every run of joins, syncs, heartbeats, leaves, cleanups, deletions, failed store calls and crashes |
| GroupRuns.StepKeeps | pkg/broker/coordinator.go:126-405 | Every request, with any outcome of the store, keeps it, and memory and record move on only as allowed |
| GroupInvariant.JoinOk | pkg/broker/coordinator.go:126-206 | A join keeps the group well formed, marks the caller and nobody else as joined, and is ready exactly past Preparing, when everyone has joined |
| GroupInvariant.JoinExactly | pkg/broker/coordinator.go:143-169 | A join adds exactly the caller and starts a new generation if and only if the group is new or a stranger joins a stable group |
| GroupInvariant.JoinPreserves | pkg/broker/coordinator.go:133-169 | A join enters the caller as it asks and leaves every other member and the leader alone; in a new group the caller leads |
| GroupInvariant.SyncOk | pkg/broker/coordinator.go:208-294 | A sync keeps the group well formed, never changes the assignments of a stable generation, and succeeds only for a member of the current generation of a stable group |
| GroupInvariant.HeartbeatOk | pkg/broker/coordinator.go:335-345 | A heartbeat keeps the group well formed, its assignments and who has joined |
| GroupInvariant.LeftOk | pkg/broker/coordinator.go:353-405 | A leave that does not end the group keeps it well formed |
| GroupInvariant.LeftExactly | pkg/broker/coordinator.go:377-395 | A leave removes exactly the member and starts a new generation; it ends the group if and only if the member was the last |
| GroupInvariant.SweptOk | pkg/broker/coordinator.go:1061-1081 | A cleanup pass keeps the group well formed, and leaves it alone if it reports no change |
| GroupInvariant.SweptExactly | pkg/broker/coordinator.go:1061-1081 | A cleanup pass keeps exactly the members heard of in time who have joined by the deadline of a rebalance, starts a new generation if and only if somebody is gone, and ends the group if and only if nobody is left |
| Groups.StartRebalanceOk | pkg/broker/coordinator.go:1106-1127 | A rebalance is the next generation with the same members, none of them joined, no assignment, and a leader among the members |
| GroupInvariant.JoinedOk | pkg/broker/coordinator.go:1139-1151 | The rebalance completes exactly when every member has joined the current generation, and completing keeps the group well formed, its members, generation and assignments |
| GroupRecords.RestoreBuilt | pkg/broker/coordinator.go:638-763 | Loading what was persisted gives the same phase, generation, leader, protocol, members, subscriptions, heartbeats and assignments through either store; timeouts survive the direct pair and become the defaults through the in-memory clone |
| GroupRecords.PhaseRoundTrip | pkg/broker/coordinator.go:813-841 | Every phase survives its string form |
| GroupRecords.MillisTruncates | pkg/broker/coordinator.go:638-673 | A timeout loses only its part below a millisecond |
| GroupRecords.MillisRoundTrip | pkg/broker/coordinator.go:716-763 | Whole milliseconds survive |
| CoordinatorObject.GroupCoordinator.constructor | pkg/broker/coordinator.go:99-113 | No groups and no records |
| CoordinatorObject.GroupCoordinator.JoinGroup | pkg/broker/coordinator.go:126-206 | The request on the coordinator's maps is the step of the run theorems on that group's memory and record, with that answer, and leaves every other group alone |
| CoordinatorObject.GroupCoordinator.SyncGroup | pkg/broker/coordinator.go:208-294 | Likewise, with the answer that GroupAnswers.SyncAnswer characterizes |
| CoordinatorObject.GroupCoordinator.Heartbeat | pkg/broker/coordinator.go:296-351 | Likewise |
| CoordinatorObject.GroupCoordinator.LeaveGroup | pkg/broker/coordinator.go:353-405 | Likewise; the last member takes the group and its record with it |
| CoordinatorObject.GroupCoordinator.CleanupGroups | pkg/broker/coordinator.go:1061-1081 | Every group in memory gets exactly one cleanup turn, in whatever order the map is walked |
| CoordinatorObject.GroupCoordinator.CleanupGroup | pkg/broker/coordinator.go:1068-1080 | One group's turn is the cleanup step |
| CoordinatorObject.GroupCoordinator.DeleteGroups | pkg/broker/coordinator.go:550-591 | The request takes its ids one by one, refuses blank ones, and changes every group and answers every id as the next two rows characterize |
| GroupDeletion.DeletionMeans | pkg/broker/coordinator.go:550-585 | A group is answered NONE only if it was there and not answered as gone before; a group answered NONE or GROUP_ID_NOT_FOUND is gone at the end from memory and store; blank and unnamed ids are left alone |
| GroupDeletion.RemovedIsGone | pkg/broker/coordinator.go:550-591 | After any number of turns a group answered as gone is gone, and any other keeps its memory and its record, except that a delete that failed may have reached the store |
| CoordinatorObject.GroupCoordinator.DeleteGroup | pkg/broker/coordinator.go:558-580 | One id's turn: NONE exactly if the record was there and its deletion is reported, GROUP_ID_NOT_FOUND exactly if the store has none; other groups are left alone |
| CoordinatorObject.GroupCoordinator.EnsureGroup | pkg/broker/coordinator.go:593-612 | From memory, else loaded, else a new group |
| CoordinatorObject.GroupCoordinator.LoadGroupIfMissing | pkg/broker/coordinator.go:614-628 | From memory, else loaded from the record, else none, else an error |
| CoordinatorObject.GroupCoordinator.PersistGroup | pkg/broker/coordinator.go:630-636 | Writes the group's record, or deletes it for an empty group, and touches no other record |
| CoordinatorObject.GroupCoordinator.JoinHere | pkg/broker/coordinator.go:133-206 | The join on a group in memory, with the answer that GroupAnswers.JoinAnswer characterizes, leaving every other group alone |
| CoordinatorObject.GroupCoordinator.SyncHere | pkg/broker/coordinator.go:223-293 | The sync on a group in memory, with the answer that GroupAnswers.SyncAnswer characterizes, leaving every other group alone |
| CoordinatorObject.GroupCoordinator.HeartbeatHere | pkg/broker/coordinator.go:314-350 | The heartbeat on a group in memory, leaving every other group alone |
| CoordinatorObject.GroupCoordinator.LeaveHere | pkg/broker/coordinator.go:377-404 | The leave on a group in memory, leaving every other group alone |
| CoordinatorObject.GroupState.constructor | pkg/broker/coordinator.go:604-610 | A new group: empty, without leader, with the default rebalance timeout |
| CoordinatorObject.GroupState.ClearJoins | pkg/broker/coordinator.go:1124-1126 | The loop leaves everybody in the group and nobody joined |
| CoordinatorObject.GroupState.Remove | pkg/broker/coordinator.go:1160-1180 | The removal loop takes out exactly the given members, their assignments and their leadership, in any order |
| CoordinatorObject.GroupState.FromRecord | pkg/broker/coordinator.go:716-763 | The group object built from a record |
| CoordinatorObject.GroupState.Join | pkg/broker/coordinator.go:133-179 | The part of a join that changes the group |
| CoordinatorObject.GroupState.Enter | pkg/broker/coordinator.go:133-158 | The member is entered under its own id if it is known and under the new one otherwise |
| CoordinatorObject.GroupState.Rebalance | pkg/broker/coordinator.go:160-169 | Which joins start a rebalance and which extend one |
| CoordinatorObject.GroupState.EncodeMemberSubscriptions | pkg/broker/coordinator.go:896-907 | Every member's subscription once, in id order |
| CoordinatorObject.GroupState.Sync | pkg/broker/coordinator.go:223-269 | The part of a sync that changes the group, with its refusals |
| CoordinatorObject.GroupState.Leave | pkg/broker/coordinator.go:377-395 | The part of a leave that changes the group |
| CoordinatorObject.GroupState.Sweep | pkg/broker/coordinator.go:1068-1080 | Both removals and the rebalance of one cleanup turn |
| CoordinatorObject.GroupState.EnsureLeader | pkg/broker/coordinator.go:1083-1095 | The leader stays if it is a member and is the least id otherwise |
| CoordinatorObject.GroupState.StartRebalance | pkg/broker/coordinator.go:1106-1127 | The object's rebalance, with the loop that clears joins |
| CoordinatorObject.GroupState.BumpRebalanceDeadline | pkg/broker/coordinator.go:1129-1137 | The deadline moves by the timeout in force |
| CoordinatorObject.GroupState.CompleteIfReady | pkg/broker/coordinator.go:1139-1151 | The loop finds out whether all members have joined |
| CoordinatorObject.GroupState.MarkStable | pkg/broker/coordinator.go:1153-1158 | Stable without a deadline, unless dead |
| CoordinatorObject.GroupState.RemoveExpiredMembers | pkg/broker/coordinator.go:1160-1180 | Exactly the members whose heartbeat is older than their timeout go, with their assignments and leadership, in whatever order the map is walked |
| CoordinatorObject.GroupState.DropRebalanceLaggers | pkg/broker/coordinator.go:1182-1201 | Past the deadline exactly the members who did not join the generation go |
| Assignment.AssignedExactCover | pkg/broker/coordinator.go:909-961 | For all members, subscriptions and duplicate-free partition lists each partition of a subscribed topic goes to exactly one subscriber and nothing else is assigned |
| Assignment.AssignedBalanced | pkg/broker/coordinator.go:921-935 | Two subscribers of a topic get numbers of partitions that differ by at most one |
| Assignment.AssignedCanonical | pkg/broker/coordinator.go:937-958 | A member's list names each topic once, in order, with its partitions strictly ascending |
| Assignment.RoundRobin | pkg/broker/coordinator.go:921-935 | The i-th partition of a topic goes to the i-th of its subscribers in id order, counted round |
| Assignment.AssignedFits | pkg/broker/coordinator.go:909-961 | What is dealt out of collected topics to parsed subscriptions fits the fields of the answer |
| AssignmentLoops.AssignPartitions | pkg/broker/coordinator.go:909-961 | The loops over maps compute that assignment whatever order the maps are walked in |
| AssignmentLoops.FilterEligible | pkg/broker/coordinator.go:921-930 | The eligible members of a topic are its subscribers in id order |
| AssignmentLoops.DealTopic | pkg/broker/coordinator.go:931-934 | Dealing one topic round robin gives each member its share |
| AssignmentLoops.DealAll | pkg/broker/coordinator.go:915-935 | After the walk over the topics every member's table holds exactly its shares |
| AssignmentLoops.MemberList | pkg/broker/coordinator.go:943-957 | A member's list is its table in name order |
| AssignmentLoops.CollectedExactly | pkg/broker/coordinator.go:975-1010 | Exactly the subscribed topics are collected: known ones with their sorted partitions, unknown ones with partition 0 |
| AssignmentLoops.CollectedDistinct | pkg/broker/coordinator.go:975-1010 | With or without a reply of the store exactly the subscribed topics are collected and none of them with a partition twice, which is what the exact cover needs |
| AssignmentLoops.NumbersDistinct | pkg/broker/coordinator.go:997-1009 | The partition numbers collected for a topic are strictly ascending and never empty |
| AssignmentLoops.CreatePartitions | pkg/metadata/store.go:402-443 | Accepted exactly for a larger count; existing partitions stay, new ones are numbered on, and dense numbering stays dense |
| Sorting.SortNames | pkg/broker/coordinator.go:1097-1104 | The ids sorted: ordered and with exactly the elements of the set, hence independent of map order |
| Subscriptions.SubscriptionRoundTrip | pkg/broker/coordinator.go:847-894 | Parsing inverts encoding of a subscription if and only if the count fits 32 and every name length 16 bits |
| Subscriptions.ParseSubscriptionTopics | pkg/broker/coordinator.go:847-872 | The parsing loop, with its early ends on short input |
| Subscriptions.WriteSubscription | pkg/broker/coordinator.go:874-894 | The writing loop of a subscription |
| Subscriptions.AssignmentRoundTrip | pkg/broker/coordinator.go:1012-1036 | A parser of the consumer protocol's assignment, version, counts, names, partitions and user data up to the end, reads back what is encoded if and only if counts, name lengths and partition numbers fit their fields |
| Subscriptions.WriteAssignment | pkg/broker/coordinator.go:1012-1036 | The writing loops of an assignment |
| DecodedRuns.ProducedIsDecoded | addons/processors/iceberg-processor/internal/decoder/decoder.go:100-278 | End to end over all runs: from the index object and the segment object covering an acknowledged batch, Decode of either processor gives what the producer put into it, record by record: its key, value and headers, at the offset it was given, in order, in every later state; for the sql decoder if all numbers lie in [-2^30, 2^30) |
| DecodedRuns.DecodedInOrder | addons/processors/iceberg-processor/internal/decoder/decoder.go:100-164 | In every state every segment object decodes, its offsets rise strictly within its footer's range, and that range ends before every later object begins; Decode of a processor gives these records, or not found exactly when the index object is missing |
| DecodedRuns.StoredProcesses | addons/processors/iceberg-processor/internal/decoder/decoder.go:100-115 | In every state the index object of every segment is accepted by parseIndex of either processor, with the entries the builder collected |
| Decoders.IndexParsersAgree | addons/processors/sql-processor/internal/decoder/decoder.go:310-332 | The sql processor's parseIndex, which checks no version and reads the count as unsigned, against the log's and the iceberg processor's: the latter accept an index if and only if the former does and it is of version 1 with a count below 2^31, with the same entries |
| DecoderLoops.ParseSqlIndex | addons/processors/sql-processor/internal/decoder/decoder.go:310-332 | The loop of the sql processor's parseIndex computes that definition |
| DecoderLoops.Decode | addons/processors/iceberg-processor/internal/decoder/decoder.go:100-115 | Index first, then segment, with every error as it comes |
| FramedRequests.RequestDecodes | addons/processors/iceberg-processor/internal/decoder/decoder.go:142-194 | A request of any number of frames, numbered by the broker and stored, decodes to the first frame's records from the new offset and every other frame's from the base offset the client wrote |
| FramedRequests.AsAnsweredExactlyWhen | cmd/broker/main.go:541-580 | Acknowledged on a drained log, its records are decoded within the offsets the append answers if and only if the client itself put every later frame there; one frame always is |
| FramedRequests.SecondFrameElsewhere | pkg/storage/recordbatch.go:42-45 | Two frames of one record, sent to a log at any n > 0: the append answers n, the second record is decoded at 0 |
| DecodedRuns.DecodedWasAppended | addons/processors/iceberg-processor/internal/decoder/decoder.go:130-278 | In every state every record decoded from any segment object shows, field by field, an entry of a batch that an append of the run numbered, acknowledged or not, with its offset inside that batch |
| DecodedRuns.AppendsRange | pkg/storage/log.go:171-198 | The offsets of that batch are the range the append answers |
| DecodedRuns.RunAppended | pkg/storage/log.go:171-274 | Every stored and every buffered batch of every state is one that an earlier produce of the run numbered: uploads, crashes and reopens invent nothing |
| DecodedRuns.AckedHoldsProduced | pkg/storage/recordbatch.go:42-45 | An acknowledged batch holds the content that was sent; numbering does not touch it |
| DecodedRuns.RunFramed | cmd/broker/main.go:511-580 | If producers send one uncompressed frame per request, every stored and every buffered batch is such a frame in every state |
| Decoders.SegmentDecodes | addons/processors/iceberg-processor/internal/decoder/decoder.go:130-194 | Decoding a built segment is the in-order concatenation of its batches' records |
| Decoders.CompressedRefused | addons/processors/iceberg-processor/internal/decoder/decoder.go:142-194 | A compressed batch anywhere behind good ones makes the whole segment undecodable, whatever follows |
| Decoders.RecordShows | addons/processors/iceberg-processor/internal/decoder/decoder.go:262-278 | A decoded record has the entry's key, value and headers, the topic and partition asked for, and the batch's offset and time plus the entry's as 64-bit numbers |
| Decoders.RunOffsets | addons/processors/iceberg-processor/internal/decoder/decoder.go:166-194 | A contiguous run of batches decodes to strictly increasing offsets within its range |
| Decoders.EncodedFrames | addons/processors/iceberg-processor/internal/decoder/decoder.go:166-194 | A batch encoded field by field as section 5.3.1 of the Kafka documentation has it is read with its base offset, timestamp, count and records |
| Decoders.ContentUnique | addons/processors/iceberg-processor/internal/decoder/decoder.go:166-194 | The bytes of a batch determine its content |
| Records.EntriesInvert | addons/processors/iceberg-processor/internal/decoder/decoder.go:196-292 | Any list of records whose numbers fit the reader is read back exactly, with null keys and values, headers and deltas, whatever bytes follow |
| DecoderLoops.DecodeSegmentRecords | addons/processors/iceberg-processor/internal/decoder/decoder.go:130-140 | The loops over readers compute exactly the decoding of the theorems, and fail exactly when it does, with the same kind of error |
| DecoderLoops.DecodeRecordBatches | addons/processors/iceberg-processor/internal/decoder/decoder.go:142-164 | Likewise for the frame loop, which ends at the first incomplete or empty frame |
| DecoderLoops.DecodeBatchRecords | addons/processors/iceberg-processor/internal/decoder/decoder.go:166-194 | Likewise for one batch: short and compressed batches are errors, a count that is not positive gives no records |
| DecoderLoops.DecodeRecord | addons/processors/iceberg-processor/internal/decoder/decoder.go:196-278 | Likewise for one record |
| DecoderLoops.DecodeRecords | addons/processors/iceberg-processor/internal/decoder/decoder.go:184-193 | Likewise for the record loop: each record numbered and stamped as it is read |
| DecoderLoops.DecodeRecordBody | addons/processors/iceberg-processor/internal/decoder/decoder.go:209-215 | Likewise for a record's own bytes, which must not be empty |
| DecoderLoops.DecodeRecordFields | addons/processors/iceberg-processor/internal/decoder/decoder.go:216-278 | Likewise for what follows the attributes |
| DecoderLoops.ReadPayloadFrom | addons/processors/iceberg-processor/internal/decoder/decoder.go:225-268 | Likewise for key, value and headers; a negative header count is the panic of make, and a panic is told from an error |
| DecoderLoops.ReadVarint | addons/processors/sql-processor/internal/decoder/decoder.go:339-361 | Likewise for one number, by either reader |
| DecoderLoops.ReadHeaderList | addons/processors/sql-processor/internal/decoder/decoder.go:274-297 | Likewise for the header loop; a null header key is the empty string |
| DecoderLoops.ReadNullableBytes | addons/processors/sql-processor/internal/decoder/decoder.go:363-372 | Likewise for nullable bytes: a negative length is a null |
| Varints.Varint64Inverts | addons/processors/iceberg-processor/internal/decoder/decoder.go:294-319 | The 64-bit reader inverts the zigzag varint of every int64 and stops where it ends |
| Varints.Varint32InvertsExactlyWhen | addons/processors/sql-processor/internal/decoder/decoder.go:339-361 | The 32-bit reader inverts it if and only if the value lies in [-2^30, 2^30) |
| Varints.ReadersAgreeExactlyWhen | addons/processors/sql-processor/internal/decoder/decoder.go:339-361 | On any input the 64-bit reader accepts, both readers agree if and only if the varint has at most five bytes and its value lies in [-2^30, 2^30) |
| Varints.ReadVarint64 | addons/processors/iceberg-processor/internal/decoder/decoder.go:294-312 | The loop of masks, shifts and ors computes the reader, with the same error on a short or overlong varint |
| Varints.ReadVarint32 | addons/processors/sql-processor/internal/decoder/decoder.go:339-357 | Likewise with the 28-bit shift limit and 32-bit words |
| Varints.Collects | addons/processors/iceberg-processor/internal/decoder/decoder.go:294-319 | One turn of either loop, as it is written: or-ing the masked and shifted byte into a 64-bit or 32-bit word adds the group, reduced to the word |
| Bits.OrIsPlus | addons/processors/iceberg-processor/internal/decoder/decoder.go:294-319 | Or-ing above all bits already there is addition, at every shift |
| Bits.OrShl | addons/processors/sql-processor/internal/decoder/decoder.go:339-361 | Likewise when the shift runs over the end of the word |
| Wire.MessageInverts | pkg/protocol/encoding.go:36-377 | For any sequence of in-range writes and any tail the matching reads return the same values and stop exactly at the tail |
| Wire.ValueInverts | pkg/protocol/encoding.go:36-377 | Every primitive is read back by its matching read |
| Wire.UVarintFits | pkg/protocol/encoding.go:294-301 | A varint is accepted exactly when it has at most ten bytes and fits 64 bits |
| Wire.TagsInvert | pkg/protocol/encoding.go:328-349 | A tag section is consumed exactly (KIP-482) |
| WireObjects.Exchange | pkg/protocol/encoding.go:28-377 | The round trip on the objects: any in-range values written one after the other, followed by any bytes, are read back one after the other and the reader stops exactly at those bytes (tag sections are passed over) |
| WireObjects.WriteAll | pkg/protocol/encoding.go:171-377 | The writer's calls together produce the message that Wire.MessageInverts is about |
| WireObjects.ByteReader.ReadValue | pkg/protocol/encoding.go:45-349 | The call for a kind gives what the kind's definition gives, error included |
| WireObjects.ByteWriter.WriteValue | pkg/protocol/encoding.go:179-377 | The call for a value is refused only out of range, and otherwise the matching read takes the value off again |
| WireObjects.Uvarint | pkg/protocol/encoding.go:294-301 | The library loop behind every varint read, with masks and shifts, accepts exactly the varints of at most ten bytes that fit 64 bits, with their value and length |
| WireObjects.PutUvarint | pkg/protocol/encoding.go:303-307 | The library loop behind every varint write produces the encoding that read inverts |
| WireObjects.ByteReader.constructor | pkg/protocol/encoding.go:28-30 | Starts at the front of the buffer |
| WireObjects.ByteReader.Read | pkg/protocol/encoding.go:36-43 | The next n bytes, or an error that does not move; the slice panic exactly for a negative count |
| WireObjects.ByteReader.Int8 | pkg/protocol/encoding.go:159-165 | Returns the in-range value written at the front, whatever follows, and stops right behind it; otherwise the error |
| WireObjects.ByteReader.Int16 | pkg/protocol/encoding.go:45-51 | Returns the in-range value written at the front, whatever follows, and stops right behind it; otherwise the error |
| WireObjects.ByteReader.Int32 | pkg/protocol/encoding.go:53-59 | Returns the in-range value written at the front, whatever follows, and stops right behind it; otherwise the error |
| WireObjects.ByteReader.Int64 | pkg/protocol/encoding.go:61-67 | Returns the in-range value written at the front, whatever follows, and stops right behind it; otherwise the error |
| WireObjects.ByteReader.Uuid | pkg/protocol/encoding.go:69-77 | Returns the in-range value written at the front, whatever follows, and stops right behind it; otherwise the error |
| WireObjects.ByteReader.Bool | pkg/protocol/encoding.go:79-92 | Returns the in-range value written at the front, whatever follows, and stops right behind it; otherwise the error; bytes other than 0 and 1 are refused |
| WireObjects.ByteReader.String | pkg/protocol/encoding.go:94-107 | Returns the in-range value written at the front, whatever follows, and stops right behind it; otherwise the error; a negative length is refused |
| WireObjects.ByteReader.NullableString | pkg/protocol/encoding.go:140-157 | Returns the in-range value written at the front, whatever follows, and stops right behind it; otherwise the error; -1 is null, other negative lengths are refused |
| WireObjects.ByteReader.Bytes | pkg/protocol/encoding.go:248-261 | Returns the in-range value written at the front, whatever follows, and stops right behind it; otherwise the error; a negative length is refused |
| WireObjects.ByteReader.UVarint | pkg/protocol/encoding.go:294-301 | Returns the in-range value written at the front, whatever follows, and stops right behind it; otherwise the error |
| WireObjects.ByteReader.CompactLength | pkg/protocol/encoding.go:359-369 | Zero is null; a length of 2^63 or more comes out negative |
| WireObjects.ByteReader.CompactString | pkg/protocol/encoding.go:109-122 | Returns the in-range value written at the front, whatever follows, and stops right behind it; otherwise the error; a null is refused |
| WireObjects.ByteReader.CompactNullableString | pkg/protocol/encoding.go:124-138 | Returns the in-range value written at the front, whatever follows, and stops right behind it; otherwise the error; a negative length is null |
| WireObjects.ByteReader.CompactBytes | pkg/protocol/encoding.go:263-272 | Returns the in-range value written at the front, whatever follows, and stops right behind it; otherwise the error; a negative length is null |
| WireObjects.ByteReader.CompactArrayLen | pkg/protocol/encoding.go:309-318 | Returns the in-range value written at the front, whatever follows, and stops right behind it; otherwise the error; zero is -1 |
| WireObjects.ByteReader.SkipTaggedFields | pkg/protocol/encoding.go:328-349 | Passes over exactly the tag section a reader of its tags would consume, and fails exactly when that reader does |
| WireObjects.ByteWriter.constructor | pkg/protocol/encoding.go:171-173 | Starts empty |
| WireObjects.ByteWriter.Int8 | pkg/protocol/encoding.go:209-211 | What is appended is read back as this value, if it is in range, whatever is written after it |
| WireObjects.ByteWriter.Int16 | pkg/protocol/encoding.go:179-183 | What is appended is read back as this value, if it is in range, whatever is written after it |
| WireObjects.ByteWriter.Int32 | pkg/protocol/encoding.go:185-189 | What is appended is read back as this value, if it is in range, whatever is written after it |
| WireObjects.ByteWriter.Int64 | pkg/protocol/encoding.go:191-195 | What is appended is read back as this value, if it is in range, whatever is written after it |
| WireObjects.ByteWriter.Uuid | pkg/protocol/encoding.go:197-199 | What is appended is read back as this value, if it is in range, whatever is written after it |
| WireObjects.ByteWriter.Bool | pkg/protocol/encoding.go:201-207 | What is appended is read back as this value, if it is in range, whatever is written after it |
| WireObjects.ByteWriter.String | pkg/protocol/encoding.go:213-223 | What is appended is read back as this value, if it is in range, whatever is written after it; panics with nothing written exactly when longer than 32767 bytes |
| WireObjects.ByteWriter.NullableString | pkg/protocol/encoding.go:225-231 | Likewise, null included |
| WireObjects.ByteWriter.CompactString | pkg/protocol/encoding.go:233-238 | What is appended is read back as this value, if it is in range, whatever is written after it |
| WireObjects.ByteWriter.CompactNullableString | pkg/protocol/encoding.go:240-246 | What is appended is read back as this value, if it is in range, whatever is written after it, null included |
| WireObjects.ByteWriter.BytesWithLength | pkg/protocol/encoding.go:274-277 | What is appended is read back as this value, if it is in range, whatever is written after it |
| WireObjects.ByteWriter.CompactBytes | pkg/protocol/encoding.go:279-288 | What is appended is read back as this value, if it is in range, whatever is written after it, null included |
| WireObjects.ByteWriter.UVarint | pkg/protocol/encoding.go:303-307 | What is appended is read back as this value, if it is in range, whatever is written after it |
| WireObjects.ByteWriter.CompactArrayLen | pkg/protocol/encoding.go:320-326 | What is appended is read back as this value, if it is in range, whatever is written after it, -1 included |
| WireObjects.ByteWriter.WriteTaggedFields | pkg/protocol/encoding.go:351-357 | The count is read back, and a count of 0 as an empty tag section |
| WireObjects.ByteWriter.WriteTags | pkg/protocol/encoding.go:303-357 | A tag section put together from the writer's calls is read back tag by tag |
| WireObjects.ByteWriter.CompactLength | pkg/protocol/encoding.go:371-377 | Appends the length plus one, zero for a negative length |
| S3Health.WindowExact | pkg/broker/s3_health.go:103-188 | After any calls with a clock that does not run backwards the sample list is exactly the last min(maxSamples, number in window) operations of the whole history, and state, average latency and error rate are the specification of those |
| S3Health.SinceLastChange | pkg/broker/s3_health.go:190-196 | The reported time is that of the call that last changed the state; the state was the present one after every call since and another before |
| S3Health.WithDefaults | pkg/broker/s3_health.go:70-95 | The defaults leave every setting positive |
| S3Health.StateMeans | pkg/broker/s3_health.go:161-188 | Unavailable if and only if the latencies add up to the critical one for each sample or the failures to the critical rate for each; Degraded if and only if that holds of the warning limits alone; Healthy otherwise |
| S3Health.WorseSample | pkg/broker/s3_health.go:161-188 | The state never improves when a sample gets slower or fails |
| S3Health.S3HealthMonitor.constructor | pkg/broker/s3_health.go:70-95 | A healthy monitor with the defaults filled in |
| S3Health.S3HealthMonitor.RecordOperation | pkg/broker/s3_health.go:103-118 | The object's call is the step of the theorem |
| S3Health.S3HealthMonitor.Snapshot | pkg/broker/s3_health.go:121-143 | Likewise for a look at the state |
| S3Health.S3HealthMonitor.Truncate | pkg/broker/s3_health.go:145-159 | The loop drops samples from the front up to the first young one |
| S3Health.S3HealthMonitor.Recompute | pkg/broker/s3_health.go:161-188 | The loop computes average, error rate and state, and moves the time only on a change |
| S3Health.S3HealthMonitor.SetState | pkg/broker/s3_health.go:190-196 | The time moves exactly when the state changes |
| Snapshots.PublishMetadataSnapshot | pkg/operator/snapshot.go:206-284 | Under any interleaving with other writers, conflicts, errors and lost answers: every write that took effect starts with the desired topics unchanged and keeps by name every named, error-free topic of the decodable value it replaced; success means the key holds the last such write; it succeeds if one of its five attempts is undisturbed and what failed before could be tried again |
| Snapshots.TryPublish | pkg/operator/snapshot.go:220-281 | One attempt: merge with the value read, commit only if the key has not moved, decide whether to go on; an attempt without errors succeeds exactly when nobody wrote between read and commit (or the key was and is absent), and then replaces what it read |
| Snapshots.PublishedWell | pkg/operator/snapshot.go:206-307 | The reason: each write is the desired snapshot merged with the values found so far, the last of which is the one it replaces |
| Snapshots.Etcd.CompareAndPut | pkg/operator/snapshot.go:250-258 | The guarded transaction puts exactly when the key has the revision that was read, or is still absent |
| Snapshots.Etcd.Elsewhere | pkg/operator/snapshot.go:250-258 | Other writers always move the revision past the one that was read |
| Snapshots.MergeSnapshots | pkg/operator/snapshot.go:286-307 | The two loops append exactly the usable topics under names the new snapshot does not have |
| Snapshots.SeenNames | pkg/operator/snapshot.go:290-296 | The names seen are exactly the non-empty names of the topics |
| Snapshots.MissingExactly | pkg/operator/snapshot.go:297-305 | A topic is carried over if and only if it is stored, named, error-free and its name is missing |
| Snapshots.NothingInvented | pkg/operator/snapshot.go:286-307 | Every stored topic is desired or was usable in a value that was read |
| Snapshots.FirstFoundWins | pkg/operator/snapshot.go:239-244 | Over several attempts a name that is not desired keeps the definition of the first value read that has it |
| Snapshots.CurrentExactlyWhen | pkg/operator/snapshot.go:239-244 | So the definition written is the one replaced if and only if no earlier attempt read the name, or read the same definition |
| Snapshots.StaleDefinition | pkg/operator/snapshot.go:239-244 | Two values found with different definitions of a name: the merge keeps the first |
| Snapshots.PutsBack | pkg/operator/snapshot.go:220-281 | Two attempts of the publisher with another writer's put in between: the first commit fails, the second succeeds and replaces the new definition by the old one |

## Left out

Assumptions of the model:

- One broker serves a partition at a time; leases and their transfer are not part of this model.
- Operations are atomic steps: races between goroutines, the unlocked read of the next offset after a flush, prefetch goroutines as such, and another producer's flush between one produce's append and flush are not modelled.
- Offsets stay below 2^63 and a segment below 2^31 bytes; the steps of a run are restricted to that.
- New member ids are fresh, as random 63-bit numbers; generations do not wrap at 2^31; a sync collects fewer than 2^32 topics with fewer than 2^32 partitions each, numbered in 32 bits and without duplicates (see AssignmentLoops.CollectedDistinct).
- Object keys are represented by base offset; formatting and parsing of key strings is left out.
- Checksums are written but never read back by this code, so a CRC is just a number here.
- An allocation of a huge length read from a malformed record or index ends as an error here, not as an out-of-memory failure.
- JSON encoding of snapshots, protobuf encoding of group records and etcd itself are taken to be lossless and linearizable.
- Latencies add without wrap-around, and the error rate is a real number instead of a float64.
- Slices are values: aliasing between a buffer and its sub-slices is not modelled, except for the in-place base-offset rewrite.

Contracts that are deliberately narrower:

- GroupLives.SyncAnswersAgree: not for a group that ended between the two syncs and a member whose id was handed out anew, for which it is false (see GroupLives.AnswersDiffer).
- GroupTheorems.AgreeWhileExisting: the case of GroupLives.SyncAnswersAgree in which the group exists throughout.
- GroupTheorems.GenerationsOnlyGrow: while the group stays in memory; across a crash it is false, and GroupLives.GenerationAfterCrash says exactly when.
- GroupBarrier.PastPreparingAllCalled: not for a generation loaded from a record in PreparingRebalance, where it can fail (see GroupBarrier.BarrierBroken).
- GroupBarrier.CalledAfterReload: for a record of the generation that was in memory; for an older record GroupBarrier.PastPreparingAllCalled applies if it is past Preparing.
- LogTheorems.AckedStaysReadable: for batches with a non-negative offset delta, without which it is false (see OffsetDeltas.AcknowledgedThenGone); OffsetDeltas.UndisturbedExactlyWhen has the exact condition for two produces.
- DecodedRuns.ProducedIsDecoded: for requests that carry one uncompressed frame with rising deltas within the batch; compressed batches are refused by the decoders, and of several frames in one request only the first is numbered (see FramedRequests.AsAnsweredExactlyWhen).
- WireObjects.Uvarint: the loops of binary.Uvarint and binary.PutUvarint are written after the Go library, which is not part of the repository.
- DecodedRuns.DecodedWasAppended: for requests of one uncompressed frame, like DecodedRuns.ProducedIsDecoded.
- OffsetDeltas.UndisturbedExactlyWhen: for a log with nothing buffered whose segments tile, and a second batch whose own delta is not negative.

Not modelled. Each of these looks up, stores or translates single values, and the repository has no
inverse or second definition to prove it against:

- OffsetCommit, OffsetFetch, DescribeGroups, ListGroups, FindCoordinator and the error-code tables.
- ParseRequest and the Encode*Response functions: there is no decoder of responses or encoder of requests to prove them against.
- DeleteTopic, topic configuration and the etcd store's own bookkeeping.
- CountRecordBatchMessages, EarliestOffset.

Outside the system modelled here:

- The S3 client for AWS, retries, metrics, HTTP endpoints, Kubernetes controllers, the operator's merge of a snapshot outside the retry loop (the same loops as mergeSnapshots), and the sinks and run loops of the processors.
