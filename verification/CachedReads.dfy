/** What a flush puts into the segment cache, and what that is good for (pkg/storage/log.go). */
module CachedReads {
  import opened Wrappers
  import opened RecordBatches
  import opened WriteBuffers
  import opened SparseIndex
  import opened Segments
  import opened ObjectStore
  import opened ReadPath
  import opened PartitionLogs
  import opened LogMachine
  import opened LogInvariant
  import opened LogSteps
  import opened LogRuns
  import opened LogTheorems
  import opened BrokerFetch
  import LRU = SegmentCache

  lemma FlushCaches(cfg: Config, log: Log, objs: Objects, cache: LRU.Lru, io: FlushIo)
    requires BufferOk(log) && log.buffer.batches != [] && io.upload.Uploaded?
    ensures var base, bytes := log.buffer.batches[0].baseOffset, SegmentBytes(log.buffer.batches, io.stamp);
            var o := FlushLocked(cfg, log, objs, cache, io);
            && o.result.Ok? && base in o.objs.data && o.objs.data[base] == bytes
            && (cfg.cacheEnabled && |bytes| <= cfg.cacheCapacity ==> LRU.Entry(cfg.CacheKey(base), bytes) in o.cache)
  {
    hide SegmentBytes, IndexOf, LRU.MakeKey, LRU.Put, TotalMessages;
    var bytes := SegmentBytes(log.buffer.batches, io.stamp);
    if |bytes| <= cfg.cacheCapacity {
      LRU.PutHolds(cache, cfg.cacheCapacity, cfg.CacheKey(log.buffer.batches[0].baseOffset), bytes);
    }
  }

  /** The segment that was stored last is in the cache, if there is a cache and it fits. */
  ghost predicate LastCached(w: World) {
    && w.hist != [] && w.hist[|w.hist| - 1].batches != [] && Base(w.hist[|w.hist| - 1]) in w.objs.data
    && (w.cfg.cacheEnabled && |w.objs.data[Base(w.hist[|w.hist| - 1])]| <= w.cfg.cacheCapacity ==>
          Cached(w, Base(w.hist[|w.hist| - 1])))
  }

  lemma FlushedCaches(w: World, log: Log, io: FlushIo, notify: Option<int>, write: Write)
    requires BufferOk(log) && log.buffer.batches != [] && io.upload.Uploaded?
    ensures LastCached(Flushed(w, log, io, notify, write))
    ensures Flushed(w, log, io, notify, write).hist == w.hist + [Stored(log.buffer.batches, io.stamp, true, true)]
  {
    hide FlushLocked, BufferOk, SegmentBytes, LRU.MakeKey;
    FlushCaches(w.cfg, log, w.objs, w.cache, io);
    TraceShape(log.buffer.batches, io);
  }

  /** A flush of nothing leaves objects and cache alone. */
  lemma IdleFlush(w: World, io: FlushIo, write: Write)
    requires w.log.Some? && w.log.value.buffer.batches == []
    ensures var w' := DoFlush(w, w.log.value, io, write);
            w'.objs == w.objs && w'.cache == w.cache && w'.hist == w.hist && w'.cfg == w.cfg
  {
    hide Built, LRU.Put;
  }

  /** The last stored segment is cached, and holds `b`. */
  ghost predicate LastHolds(w: World, b: RecordBatch) {
    LastCached(w) && b in w.hist[|w.hist| - 1].batches
  }

  lemma AppendCaches(w: World, log: Log, batch: RecordBatch, io: FlushIo, write: Write)
    requires Inv(w) && w.log == Some(log) && |batch.data| >= 8 && LogOk(w.cfg, Numbered(log, batch), w.hist)
    requires ShouldFlush(w.cfg.buffer, Numbered(log, batch).buffer, io.now) && io.upload.Uploaded?
    ensures var w1 := DoAppend(w, log, batch, io, write);
            w1.log.Some? && w1.log.value.buffer.batches == [] && LastHolds(w1, Patched(batch, log.nextOffset))
  {
    hide Inv, LogOk, AppendBatch, DoAppend, ShouldFlush, Patched, FlushLocked, LastCached;
    var log1 := Numbered(log, batch);
    assert log1.buffer.batches[|log.buffer.batches|] == Patched(batch, log.nextOffset);
    InvParts(w, log1);
    AppendShape(w, log, batch, io, write);
    var f := FlushLocked(w.cfg, log1, w.objs, w.cache, io);
    var notify := if f.result.Ok? && f.result.value.Some? then Some(f.result.value.value.lastOffset) else None;
    FlushedCaches(w, log1, io, notify, write);
    FlushKeeps(w.cfg, log1, w.objs, w.cache, w.hist, io);
  }

  lemma FlushStepCaches(w: World, log: Log, io: FlushIo, write: Write, b: RecordBatch)
    requires BufferOk(log) && b in log.buffer.batches && io.upload.Uploaded?
    ensures LastHolds(DoFlush(w, log, io, write), b)
  {
    hide BufferOk, FlushLocked, LastCached, DoFlush, Flushed, Flush;
    FlushedIs(w, log, io, write);
    FlushedCaches(w, log, io, Flush(w.cfg, log, w.objs, w.cache, io).notify, write);
  }

  lemma ProduceCaches(w: World, a: Action)
    requires Inv(w) && Legal(w, a) && a.Produce? && w.log.Some? && NewRecordBatchFromBytes(a.records).Ok?
    requires Step(w, a).acked != w.acked
    ensures LastHolds(Step(w, a), Patched(NewRecordBatchFromBytes(a.records).value, w.log.value.nextOffset))
  {
    hide Inv, LogOk, AppendBatch, DoAppend, DoFlush, Flush, Legal, ShouldFlush, Patched, FlushLocked, LastHolds,
         Numbered;
    AcknowledgedExactlyWhen(w, a);
    var log, batch := w.log.value, NewRecordBatchFromBytes(a.records).value;
    var b := Patched(batch, log.nextOffset);
    LegalNumbered(w, log, a, batch);
    var w1 := DoAppend(w, log, batch, a.append, a.write1);
    AckedThrough(w, log, batch, a);
    if ShouldFlush(w.cfg.buffer, Numbered(log, batch).buffer, a.append.now) {
      AppendCaches(w, log, batch, a.append, a.write1);
      IdleFlush(w1, a.flush, a.write2);
      SameCached(w1, DoFlush(w1, w1.log.value, a.flush, a.write2), b);
    } else {
      AppendShape(w, log, batch, a.append, a.write1);
      NumberedHolds(w, log, batch);
      FlushStepCaches(w1, Numbered(log, batch), a.flush, a.write2, b);
      SameCached(DoFlush(w1, w1.log.value, a.flush, a.write2), DoFlush(w1, w1.log.value, a.flush, a.write2), b);
    }
  }

  lemma NumberedHolds(w: World, log: Log, batch: RecordBatch)
    requires |batch.data| >= 8 && Inv(w) && LogOk(w.cfg, Numbered(log, batch), w.hist)
    ensures Patched(batch, log.nextOffset) in Numbered(log, batch).buffer.batches && BufferOk(Numbered(log, batch))
  {
    hide Inv, LogOk, Patched, BufferOk;
    InvParts(w, Numbered(log, batch));
    assert Numbered(log, batch).buffer.batches[|log.buffer.batches|] == Patched(batch, log.nextOffset);
  }

  lemma FlushedIs(w: World, log: Log, io: FlushIo, write: Write)
    ensures DoFlush(w, log, io, write) == Flushed(w, log, io, Flush(w.cfg, log, w.objs, w.cache, io).notify, write)
  {
    hide FlushLocked, Trace;
  }

  lemma SameCached(w: World, w': World, b: RecordBatch)
    requires LastHolds(w, b) && w'.objs == w.objs && w'.cache == w.cache && w'.hist == w.hist && w'.cfg == w.cfg
    ensures LastHolds(w', b) && LastHolds(w'.(acked := w'.acked + [b]), b)
  {
  }

  /** The offset belongs to the batch that was acknowledged last. */
  predicate OfLastAcked(w: World, offset: int) {
    w.acked != [] && w.acked[|w.acked| - 1].baseOffset <= offset <= w.acked[|w.acked| - 1].LastOffset()
  }

  /** The last stored segment covers the offset, and a read there needs no download if the cache is on
      and the segment fits. */
  ghost predicate ReadsLocally(w: World, offset: int, maxBytes: int) {
    && w.log.Some? && w.hist != [] && CoversAt(w, |w.hist| - 1, offset) && Base(w.hist[|w.hist| - 1]) in w.objs.data
    && (w.cfg.cacheEnabled && |w.objs.data[Base(w.hist[|w.hist| - 1])]| <= w.cfg.cacheCapacity ==>
          Read(w.cfg, w.log.value, w.objs, w.cache, offset, maxBytes, false).1.Ok?)
  }

  /** Read back at once. Right after an acknowledged produce, a read at any offset of its batch is
      answered even while downloads fail, if the cache is on and the segment fits. */
  lemma AckedIsCached(cfg: Config, actions: seq<Action>, states: seq<World>, i: nat, offset: int, maxBytes: int)
    requires IsRun(cfg, actions, states) && i < |actions| && states[i + 1].acked != states[i].acked
    requires OfLastAcked(states[i + 1], offset)
    ensures ReadsLocally(states[i + 1], offset, maxBytes)
  {
    hide Inv, Step, Legal, Patched, Read, Cached, CoversAt;
    RunKeeps(cfg, actions, states, i);
    RunKeeps(cfg, actions, states, i + 1);
    var w, a, w' := states[i], actions[i], states[i + 1];
    StepAcks(w, a);
    ProduceCaches(w, a);
    StaysOpen(w, a);
    var n := |w'.hist| - 1;
    AckedLast(w', n, w'.acked[|w'.acked| - 1], offset);
    LocalRead(w', n, offset, maxBytes);
  }

  lemma LocalRead(w: World, n: nat, offset: int, maxBytes: int)
    requires Inv(w) && w.log.Some? && n < |w.hist| && CoversAt(w, n, offset)
    ensures Cached(w, Base(w.hist[n])) ==> Read(w.cfg, w.log.value, w.objs, w.cache, offset, maxBytes, false).1.Ok?
  {
    hide Inv, Read, Cached;
    DownloadsUnlessCached(w, n, offset, maxBytes);
    ReadsWithout(w, offset, maxBytes, false);
    var k, m := ReadsBatches(w, offset, maxBytes);
    assert Cached(w, Base(w.hist[n])) ==> CachedAt(w, offset);
  }

  lemma StaysOpen(w: World, a: Action)
    requires Legal(w, a) && a.Produce? && w.log.Some?
    ensures Step(w, a).log.Some?
  {
    hide AppendBatch, Flush, ShouldFlush, Trace, Patched;
  }

  lemma AckedLast(w: World, n: nat, b: RecordBatch, offset: int)
    requires Inv(w) && w.log.Some? && n == |w.hist| - 1 && b in w.acked && b in w.hist[n].batches
    requires b.baseOffset <= offset <= b.LastOffset()
    ensures CoversAt(w, n, offset)
  {
    hide LogOk, Coherent, StoreOk, Holds, HasBase, Serializable;
    var i :| 0 <= i < |w.hist| && b in w.hist[i].batches && w.hist[i].indexed && w.hist[i].live;
    var k :| 0 <= k < |w.hist[n].batches| && w.hist[n].batches[k] == b;
    var m :| 0 <= m < |w.hist[i].batches| && w.hist[i].batches[m] == b;
    WithinSegment(w.hist[n], k);
    WithinSegment(w.hist[i], m);
    OneSegment(w.hist, i, n, offset);
  }

  /** What a read does to the cache. A hit makes the segment the most recently used; a segment that had
      to be downloaded whole, for want of index entries, is kept if it fits; anything else leaves the
      cache as it was. */
  lemma ReadCaches(cfg: Config, log: Log, objs: Objects, cache: LRU.Lru, offset: int, maxBytes: int, available: bool)
    requires FindSegment(log.segments, offset).Some? && cfg.cacheEnabled
    ensures var seg := FindSegment(log.segments, offset).value;
            var key := cfg.CacheKey(seg.baseOffset);
            var after := Read(cfg, log, objs, cache, offset, maxBytes, available).0;
            var hit := exists data :: LRU.Entry(key, data) in cache;
            && (hit ==> after != [] && after[0].key == key && forall e :: e in cache && e.key != key ==> e in after)
            && (!hit && available && EntriesOf(log, seg.baseOffset) == [] && seg.baseOffset in objs.data
                && |objs.data[seg.baseOffset]| <= cfg.cacheCapacity ==>
                  LRU.Entry(key, objs.data[seg.baseOffset]) in after)
            && (!hit && (!available || EntriesOf(log, seg.baseOffset) != []) ==>
                  after == cache || SegmentRangeForOffset(seg, EntriesOf(log, seg.baseOffset), offset, maxBytes).None?)
  {
    hide LRU.MakeKey, LRU.Put, LRU.Find, SliceCached, FindSegment, ComputeSegmentRange;
    var seg := FindSegment(log.segments, offset).value;
    var key := cfg.CacheKey(seg.baseOffset);
    if data :| LRU.Entry(key, data) in cache {
      var i :| 0 <= i < |cache| && cache[i] == LRU.Entry(key, data);
      assert cache[i].key == key;
      WithoutKeeps(cache, key);
    }
    if seg.baseOffset in objs.data && |objs.data[seg.baseOffset]| <= cfg.cacheCapacity {
      LRU.PutHolds(cache, cfg.cacheCapacity, key, objs.data[seg.baseOffset]);
    }
  }

  lemma {:induction false} WithoutKeeps(c: LRU.Lru, key: string)
    ensures forall e :: e in c && e.key != key ==> e in LRU.Without(c, key)
  {
    if c != [] { WithoutKeeps(c[..|c| - 1], key); }
  }

  /** A read that misses downloads a range only, and leaves the cache as it was, in every reachable state. */
  lemma MissIsRanged(w: World, k: nat, offset: int, maxBytes: int, available: bool)
    requires Inv(w) && w.log.Some? && k < |w.hist| && CoversAt(w, k, offset) && !Cached(w, Base(w.hist[k]))
    ensures Read(w.cfg, w.log.value, w.objs, w.cache, offset, maxBytes, available).0 == w.cache
  {
    hide Inv, Cached, LRU.MakeKey, LRU.Find, LRU.Put, ComputeSegmentRange, FindSegment;
    FoundSegment(w, k, offset);
    CachedMeans(w, Base(w.hist[k]));
    RangeFound(w, k, offset, maxBytes);
  }

  lemma RangeFound(w: World, k: nat, offset: int, maxBytes: int)
    requires Inv(w) && w.log.Some? && CoversAt(w, k, offset)
    ensures FindSegment(w.log.value.segments, offset).Some?
    ensures var seg := FindSegment(w.log.value.segments, offset).value;
            SegmentRangeForOffset(seg, EntriesOf(w.log.value, seg.baseOffset), offset, maxBytes).Some?
  {
    hide LiveRanges, LiveIndex, IndexOf, Serializable, BufferOk, FindSegment, Concat, SegmentBytes, IndexBytes,
         ComputeSegmentRange, Coherent, StoreOk, Durable;
    var s := w.hist[k];
    LiveLookup(w.cfg, w.log.value, w.hist, k, offset);
    StoredDescribed(w.cfg, w.objs, s);
    var entries := IndexOf(w.cfg.interval, s.batches).entries;
    var i := SegmentRead(RangeOf(s), entries, w.objs.data[Base(s)], s.batches, s.stamp, offset, maxBytes);
  }
}
