/** Each step of the partition machine keeps the invariant. */
module LogSteps {
  import opened Bytes
  import opened Wrappers
  import opened RecordBatches
  import opened WriteBuffers
  import opened Segments
  import opened PartitionLogs
  import opened LogMachine
  import opened LogInvariant

  // --------------------------------------------------------------- history growth

  lemma DurableExtends(b: RecordBatch, isOpen: bool, hist: seq<Stored>, more: seq<Stored>)
    requires Durable(b, isOpen, hist)
    ensures Durable(b, isOpen, hist + more)
  {
    var i :| 0 <= i < |hist| && b in hist[i].batches && hist[i].indexed && (isOpen ==> hist[i].live);
    assert (hist + more)[i] == hist[i];
  }

  lemma StoreExtends(storeNext: int, hist: seq<Stored>, more: seq<Stored>)
    requires HistOk(hist) && StoreOk(storeNext, hist) && HistOk(hist + more) && |more| <= 1
    ensures StoreOk(storeNext, hist + more)
  {
    if more == [] {
      assert hist + more == hist;
    } else {
      var h := hist + more;
      FirstNotLast(h[|hist|]);
      if hist != [] { assert h[|hist| - 1] == hist[|hist| - 1]; }
    }
  }

  /** The log's history reaches up to its next offset: nothing is buffered, nothing was lost at the end. */
  ghost predicate CaughtUp(log: Log, hist: seq<Stored>) {
    log.buffer.batches == [] && hist != [] && hist[|hist| - 1].batches != []
    && Last(hist[|hist| - 1]) + 1 == log.nextOffset
  }

  /** A world whose log was flushed by `io`; `notify` is what the callback stored, if anything. */
  function Flushed(w: World, log: Log, io: FlushIo, notify: Option<int>, write: Write): World {
    var o := FlushLocked(w.cfg, log, w.objs, w.cache, io);
    w.(log := Some(o.log), objs := o.objs, cache := o.cache,
       storeNext := UpdateOffsets(w.storeNext, notify, write), hist := w.hist + Trace(log.buffer.batches, io))
  }

  lemma TraceShape(batches: seq<RecordBatch>, io: FlushIo)
    ensures |Trace(batches, io)| <= 1
    ensures forall i :: 0 <= i < |Trace(batches, io)| ==> Trace(batches, io)[i].batches == batches
    ensures batches != [] && io.upload.Uploaded? ==> Trace(batches, io) == [Stored(batches, io.stamp, true, true)]
  {
  }

  lemma StoreCaughtUp(log: Log, hist: seq<Stored>)
    requires CaughtUp(log, hist) && HistOk(hist)
    ensures StoreOk(log.nextOffset, hist)
  {
    FirstNotLast(hist[|hist| - 1]);
  }

  /** A completed upload of the whole buffer makes its batches durable. */
  lemma UploadDurable(log: Log, hist: seq<Stored>, io: FlushIo)
    requires BufferOk(log) && log.buffer.batches != [] && io.upload.Uploaded?
    ensures var hist' := hist + Trace(log.buffer.batches, io);
            && CaughtUp(log.(buffer := Drained(log.buffer, io.now)), hist')
            && forall b :: b in log.buffer.batches ==> Durable(b, true, hist')
  {
    var batches := log.buffer.batches;
    var hist' := hist + Trace(batches, io);
    BufferStored(log, io.stamp, true, true);
    hide BufferOk;
    assert hist'[|hist|] == Stored(batches, io.stamp, true, true);
    forall b | b in batches ensures Durable(b, true, hist') {
      assert b in hist'[|hist|].batches;
    }
  }

  lemma FlushedKeeps(w: World, log: Log, io: FlushIo, notify: Option<int>, write: Write)
    requires Inv(w) && w.log.Some? && LogOk(w.cfg, log, w.hist)
    requires notify.Some? ==> FlushLocked(w.cfg, log, w.objs, w.cache, io).result.Ok?
                              && notify.value == log.nextOffset - 1
                              && (log.buffer.batches != [] || CaughtUp(log, w.hist))
    ensures Inv(Flushed(w, log, io, notify, write))
    ensures var w' := Flushed(w, log, io, notify, write);
            && w'.log.value.buffer.batches == [] && w'.log.value.nextOffset == log.nextOffset
            && (FlushLocked(w.cfg, log, w.objs, w.cache, io).result.Ok? ==>
                  && (log.buffer.batches != [] || CaughtUp(log, w.hist) ==> CaughtUp(w'.log.value, w'.hist))
                  && forall b :: b in log.buffer.batches ==> Durable(b, true, w'.hist))
  {
    hide FlushLocked, ObjsOk, Coherent, BufferOk, LiveRanges, LiveIndex, Durable;
    var batches := log.buffer.batches;
    var o := FlushLocked(w.cfg, log, w.objs, w.cache, io);
    FlushKeeps(w.cfg, log, w.objs, w.cache, w.hist, io);
    TraceShape(batches, io);
    var t := Trace(batches, io);
    var hist' := w.hist + t;
    assert batches == [] ==> hist' == w.hist;
    hide Trace;
    if o.result.Ok? && batches != [] { UploadDurable(log, w.hist, io); }
    assert o.result.Ok? && (batches != [] || CaughtUp(log, w.hist)) ==> CaughtUp(o.log, hist');
    forall b | b in w.acked ensures Durable(b, true, hist') { DurableExtends(b, true, w.hist, t); }
    FlushedStore(w, log, o.log, t, notify, write);
  }

  lemma FlushedStore(w: World, log: Log, log': Log, t: seq<Stored>, notify: Option<int>, write: Write)
    requires HistOk(w.hist) && StoreOk(w.storeNext, w.hist) && HistOk(w.hist + t) && |t| <= 1
    requires notify.Some? ==> notify.value == log'.nextOffset - 1 && CaughtUp(log', w.hist + t)
    ensures StoreOk(UpdateOffsets(w.storeNext, notify, write), w.hist + t)
  {
    StoreExtends(w.storeNext, w.hist, t);
    if notify.Some? { StoreCaughtUp(log', w.hist + t); }
  }

  // --------------------------------------------------------------------- producing

  lemma NumberedKeeps(cfg: Config, log: Log, hist: seq<Stored>, batch: RecordBatch)
    requires LogOk(cfg, log, hist) && |batch.data| >= 8 && batch.lastOffsetDelta >= 0
    requires log.nextOffset + batch.lastOffsetDelta + 1 < TWO63
    requires HEADER_LEN + |Concat(log.buffer.batches)| + |batch.data| + FOOTER_LEN < TWO31
    ensures LogOk(cfg, Numbered(log, batch), hist)
  {
    hide LiveRanges, LiveIndex, HistOk, PutUint64;
    var b := Patched(batch, log.nextOffset);
    var batches := log.buffer.batches + [b];
    assert batches[..|log.buffer.batches|] == log.buffer.batches;
    assert Concat(batches) == Concat(log.buffer.batches) + b.data;
    assert Contiguous(batches);
  }

  /** AppendBatch is numbering, then a flush of the numbered log when it is due. */
  lemma AppendShape(w: World, log: Log, batch: RecordBatch, io: FlushIo, write: Write)
    requires |batch.data| >= 8
    ensures var log1 := Numbered(log, batch);
            var f := FlushLocked(w.cfg, log1, w.objs, w.cache, io);
            var r := AppendBatch(w.cfg, log, w.objs, w.cache, batch, io).result;
            if ShouldFlush(w.cfg.buffer, log1.buffer, io.now)
            then (r.Ok? <==> f.result.Ok?)
                 && DoAppend(w, log, batch, io, write)
                    == Flushed(w, log1, io,
                               if f.result.Ok? && f.result.value.Some? then Some(f.result.value.value.lastOffset)
                               else None, write)
            else r.Ok? && DoAppend(w, log, batch, io, write) == w.(log := Some(log1))
  {
    hide FlushLocked, Numbered, ShouldFlush, Trace;
    assert w.hist + [] == w.hist;
  }

  /** AppendBatch: the batch ends up buffered, durable, or (on an error answer) lost. */
  lemma AppendKeeps(w: World, log: Log, batch: RecordBatch, io: FlushIo, write: Write)
    requires Inv(w) && w.log == Some(log) && |batch.data| >= 8
    requires LogOk(w.cfg, Numbered(log, batch), w.hist)
    ensures Inv(DoAppend(w, log, batch, io, write))
    ensures var w1 := DoAppend(w, log, batch, io, write);
            && w1.log.Some? && w1.cfg == w.cfg
            && (AppendBatch(w.cfg, log, w.objs, w.cache, batch, io).result.Ok? ==>
                  var b := Patched(batch, log.nextOffset);
                  || b in w1.log.value.buffer.batches
                  || (CaughtUp(w1.log.value, w1.hist) && Durable(b, true, w1.hist)))
  {
    hide Inv, LogOk, FlushLocked, Durable, Patched, CaughtUp, ShouldFlush, AppendBatch;
    var log1 := Numbered(log, batch);
    var b := Patched(batch, log.nextOffset);
    assert log1.buffer.batches[|log.buffer.batches|] == b;
    assert b in log1.buffer.batches;
    AppendShape(w, log, batch, io, write);
    if ShouldFlush(w.cfg.buffer, log1.buffer, io.now) {
      var f := FlushLocked(w.cfg, log1, w.objs, w.cache, io);
      hide DoAppend;
      var notify := if f.result.Ok? && f.result.value.Some? then Some(f.result.value.value.lastOffset) else None;
      FlushAppended(w, log1, io, notify, write);
    } else {
      hide DoAppend;
      BufferAppended(w, log1);
    }
  }

  lemma FlushAppended(w: World, log1: Log, io: FlushIo, notify: Option<int>, write: Write)
    requires Inv(w) && w.log.Some? && LogOk(w.cfg, log1, w.hist) && log1.buffer.batches != []
    requires var f := FlushLocked(w.cfg, log1, w.objs, w.cache, io);
             notify == if f.result.Ok? && f.result.value.Some? then Some(f.result.value.value.lastOffset) else None
    ensures Inv(Flushed(w, log1, io, notify, write))
    ensures FlushLocked(w.cfg, log1, w.objs, w.cache, io).result.Ok? ==>
              var w' := Flushed(w, log1, io, notify, write);
              CaughtUp(w'.log.value, w'.hist) && forall b :: b in log1.buffer.batches ==> Durable(b, true, w'.hist)
  {
    FlushKeeps(w.cfg, log1, w.objs, w.cache, w.hist, io);
    hide Inv, FlushLocked, Durable, ObjsOk, LogOk, Coherent;
    FlushedKeeps(w, log1, io, notify, write);
  }

  lemma BufferAppended(w: World, log1: Log)
    requires Inv(w) && w.log.Some? && LogOk(w.cfg, log1, w.hist)
    ensures Inv(w.(log := Some(log1)))
  {
  }

  /** Flush: a success answer means everything buffered is durable. */
  lemma FlushStepKeeps(w: World, log: Log, io: FlushIo, write: Write)
    requires Inv(w) && w.log == Some(log)
    requires log.buffer.batches != [] || CaughtUp(log, w.hist)
    ensures Inv(DoFlush(w, log, io, write))
    ensures Flush(w.cfg, log, w.objs, w.cache, io).result.Ok? ==>
              forall b :: b in log.buffer.batches ==> Durable(b, true, DoFlush(w, log, io, write).hist)
  {
    hide FlushLocked, Durable, ObjsOk, LogOk, Coherent, CaughtUp, Trace;
    var o := Flush(w.cfg, log, w.objs, w.cache, io);
    FlushKeeps(w.cfg, log, w.objs, w.cache, w.hist, io);
    hide Inv;
    FlushedKeeps(w, log, io, o.notify, write);
  }

  lemma LegalNumbered(w: World, log: Log, a: Action, batch: RecordBatch)
    requires Inv(w) && w.log == Some(log) && a.Produce? && Legal(w, a)
    requires NewRecordBatchFromBytes(a.records) == Ok(batch)
    ensures |batch.data| >= 8 && LogOk(w.cfg, Numbered(log, batch), w.hist)
  {
    hide ObjsOk, StoreOk, Coherent, LogOk, Durable, Concat;
    NumberedKeeps(w.cfg, log, w.hist, batch);
  }

  lemma ProduceKeeps(w: World, log: Log, a: Action)
    requires Inv(w) && w.log == Some(log) && a.Produce? && Legal(w, a)
    ensures Inv(DoProduce(w, log, a))
  {
    hide Inv, LogOk, FlushLocked, Durable, Patched, CaughtUp, AppendBatch, DoAppend, DoFlush, Flush, Legal;
    match NewRecordBatchFromBytes(a.records)
    case Err(_) =>
    case Ok(batch) =>
      LegalNumbered(w, log, a, batch);
      AppendKeeps(w, log, batch, a.append, a.write1);
      var w1 := DoAppend(w, log, batch, a.append, a.write1);
      if AppendBatch(w.cfg, log, w.objs, w.cache, batch, a.append).result.Ok? && a.sync {
        SyncKeeps(w, w1, a, Patched(batch, log.nextOffset));
      }
  }

  /** The acknowledging half of a synchronous produce. */
  lemma SyncKeeps(w: World, w1: World, a: Action, b: RecordBatch)
    requires Inv(w1) && w1.log.Some? && a.Produce?
    requires b in w1.log.value.buffer.batches || (CaughtUp(w1.log.value, w1.hist) && Durable(b, true, w1.hist))
    ensures var w2 := DoFlush(w1, w1.log.value, a.flush, a.write2);
            && Inv(w2)
            && (Flush(w1.cfg, w1.log.value, w1.objs, w1.cache, a.flush).result.Ok? ==>
                  Inv(w2.(acked := w2.acked + [b])))
  {
    hide Inv, Flush;
    var log1 := w1.log.value;
    FlushStepKeeps(w1, log1, a.flush, a.write2);
    var w2 := DoFlush(w1, log1, a.flush, a.write2);
    if Durable(b, true, w1.hist) {
      DurableExtends(b, true, w1.hist, Trace(log1.buffer.batches, a.flush));
    }
    AckKeeps(w2, b);
  }

  lemma AckKeeps(w: World, b: RecordBatch)
    requires Inv(w) && w.log.Some?
    ensures Durable(b, true, w.hist) ==> Inv(w.(acked := w.acked + [b]))
  {
    hide ObjsOk, StoreOk, Coherent, LogOk, Durable;
  }
}
