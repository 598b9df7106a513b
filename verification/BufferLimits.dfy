/** The write buffer's limits over every run of the partition (pkg/storage/buffer.go, log.go). */
module BufferLimits {
  import opened Wrappers
  import opened RecordBatches
  import opened WriteBuffers
  import opened Segments
  import opened ObjectStore
  import opened PartitionLogs
  import opened LogMachine
  import opened LogInvariant
  import opened LogSteps
  import opened LogRecovery
  import opened LogRuns
  import LRU = SegmentCache

  /** What is buffered stays below every limit that is set. */
  ghost predicate Below(cfg: BufferConfig, batches: seq<RecordBatch>) {
    && (cfg.maxBytes > 0 ==> |Concat(batches)| < cfg.maxBytes)
    && (cfg.maxMessages > 0 ==> MessageSum(batches) < cfg.maxMessages)
    && (cfg.maxBatches > 0 ==> |batches| < cfg.maxBatches)
  }

  ghost predicate LogBelow(w: World) {
    w.log.Some? ==> Below(w.cfg.buffer, w.log.value.buffer.batches)
  }

  /** Exactly when an append flushes: when with its batch the buffer reaches a limit that is set, or the
      flush interval is set and has passed. */
  lemma FlushesExactlyWhen(w: World, log: Log, batch: RecordBatch, now: int)
    requires Inv(w) && w.log == Some(log) && |batch.data| >= 8 && LogOk(w.cfg, Numbered(log, batch), w.hist)
    ensures var cfg := w.cfg.buffer;
            ShouldFlush(cfg, Numbered(log, batch).buffer, now) <==>
              || !Below(cfg, log.buffer.batches + [Patched(batch, log.nextOffset)])
              || (cfg.flushInterval > 0 && now >= log.buffer.lastFlush + cfg.flushInterval)
  {
    hide ObjsOk, Coherent, StoreOk, Durable, LiveRanges, LiveIndex, HistOk, Patched;
    var b := Patched(batch, log.nextOffset);
    var batches := log.buffer.batches + [b];
    assert batches[..|log.buffer.batches|] == log.buffer.batches;
    assert |Concat(batches)| >= |b.data| >= 8;
  }

  /** The interval counts from the last flush, successful or not, or from the opening of the log. */
  lemma FlushStamps(cfg: Config, log: Log, objs: Objects, cache: LRU.Lru, io: FlushIo, start: int, now: int)
    ensures FlushLocked(cfg, log, objs, cache, io).log.buffer.lastFlush == io.now
    ensures NewLog(start, now).buffer.lastFlush == now
  {
    hide Built, LRU.Put;
  }

  lemma EmptyBelow(cfg: BufferConfig)
    ensures Below(cfg, [])
  {
  }

  lemma FlushedBelow(w: World, log: Log, io: FlushIo, notify: Option<int>, write: Write)
    ensures var w' := Flushed(w, log, io, notify, write);
            w'.cfg == w.cfg && w'.log.Some? && w'.log.value.buffer.batches == []
  {
    hide Built, LRU.Put;
  }

  lemma AppendBelow(w: World, log: Log, batch: RecordBatch, io: FlushIo, write: Write)
    requires Inv(w) && w.log == Some(log) && |batch.data| >= 8 && LogOk(w.cfg, Numbered(log, batch), w.hist)
    ensures LogBelow(DoAppend(w, log, batch, io, write)) && DoAppend(w, log, batch, io, write).log.Some?
  {
    hide Inv, LogOk, FlushLocked, DoAppend, AppendBatch, ShouldFlush, Patched, Below;
    AppendShape(w, log, batch, io, write);
    EmptyBelow(w.cfg.buffer);
    FlushesExactlyWhen(w, log, batch, io.now);
    var log1 := Numbered(log, batch);
    if ShouldFlush(w.cfg.buffer, log1.buffer, io.now) {
      var f := FlushLocked(w.cfg, log1, w.objs, w.cache, io);
      var notify := if f.result.Ok? && f.result.value.Some? then Some(f.result.value.value.lastOffset) else None;
      FlushedBelow(w, log1, io, notify, write);
    }
  }

  lemma FlushBelow(w: World, log: Log, io: FlushIo, write: Write)
    ensures LogBelow(DoFlush(w, log, io, write))
  {
    hide Built, LRU.Put, Below;
    EmptyBelow(w.cfg.buffer);
  }

  lemma ProduceBelow(w: World, log: Log, a: Action)
    requires Inv(w) && w.log == Some(log) && a.Produce? && Legal(w, a) && LogBelow(w)
    ensures LogBelow(DoProduce(w, log, a))
  {
    hide Inv, LogOk, AppendBatch, DoAppend, DoFlush, Flush, Legal, Patched, Below;
    match NewRecordBatchFromBytes(a.records)
    case Err(_) =>
    case Ok(batch) =>
      LegalNumbered(w, log, a, batch);
      AppendBelow(w, log, batch, a.append, a.write1);
      var w1 := DoAppend(w, log, batch, a.append, a.write1);
      FlushBelow(w1, w1.log.value, a.flush, a.write2);
  }

  lemma OpenBelow(w: World, a: Action)
    requires Inv(w) && w.log.None? && a.Open? && Lists(a.listing, w.objs)
    ensures LogBelow(DoOpen(w, a))
  {
    hide ObjsOk, LogOk, Coherent, Restored, HistOk, Recovered, Below;
    EmptyBelow(w.cfg.buffer);
    ObjsHist(w.cfg, w.objs, w.hist);
    RestoredExactly(w.cfg, w.objs, w.hist, a.listing, NewLog(w.storeNext, a.now));
    RefusedUnlessIndexed(w.cfg, w.hist, NewLog(w.storeNext, a.now));
    if Restored(NewLog(w.storeNext, a.now), w.objs, a.listing).Ok? {
      RecoveredLogOk(w.cfg, w.hist, w.storeNext, a.now);
    }
  }

  lemma StepBelow(w: World, a: Action)
    requires Inv(w) && Legal(w, a) && LogBelow(w)
    ensures LogBelow(Step(w, a))
  {
    hide Inv, DoProduce, DoOpen, Read, Below;
    if a.Produce? && w.log.Some? {
      ProduceBelow(w, w.log.value, a);
    } else if a.Open? && w.log.None? {
      LegalOpen(w, a);
      OpenBelow(w, a);
    }
  }

  /** In every state of every run the open log's buffer is below every size, message and batch limit
      that is set: an append that reaches one has flushed, or failed and lost what was buffered. */
  lemma {:induction false} BufferBounded(cfg: Config, actions: seq<Action>, states: seq<World>, i: nat)
    requires IsRun(cfg, actions, states) && i < |states| && states[i].log.Some?
    ensures Below(states[i].cfg.buffer, states[i].log.value.buffer.batches)
  {
    RunBelow(cfg, actions, states, i);
    hide IsRun, Below;
  }

  lemma {:induction false} RunBelow(cfg: Config, actions: seq<Action>, states: seq<World>, i: nat)
    requires IsRun(cfg, actions, states) && i < |states|
    ensures LogBelow(states[i])
  {
    hide Inv, Step, Legal, Below;
    if i > 0 {
      RunBelow(cfg, actions, states, i - 1);
      RunKeeps(cfg, actions, states, i - 1);
      StepBelow(states[i - 1], actions[i - 1]);
    }
  }
}
