/** The next offset in the metadata store, over every run: when it is what is durable, and what a
    consumer can fetch because of it (cmd/broker/main.go, pkg/storage/log.go). */
module StoredNext {
  import opened Bytes
  import opened Wrappers
  import opened RecordBatches
  import opened WriteBuffers
  import opened Segments
  import opened PartitionLogs
  import opened LogMachine
  import opened LogInvariant
  import opened LogSteps
  import opened LogRecovery
  import opened LogRuns
  import opened LogTheorems
  import opened BrokerFetch

  /** The step stores what it has to, and a write to the metadata store after that takes effect. A
      produce stores in its append when that makes the buffer due, otherwise in its flush; it writes
      after either. An open writes after it has restored the log. */
  ghost predicate Confirms(w: World, a: Action)
    requires Legal(w, a)
  {
    match a
    case Produce(records, sync, append, flush, write1, write2) =>
      && w.log.Some? && NewRecordBatchFromBytes(records).Ok?
      && if ShouldFlush(w.cfg.buffer, Numbered(w.log.value, NewRecordBatchFromBytes(records).value).buffer, append.now)
         then append.upload.Uploaded? && (write1.Applied() || (sync && write2.Applied()))
         else sync && flush.upload.Uploaded? && write2.Applied()
    case Open(_, _, _, _, write) => w.log.None? && Step(w, a).log.Some? && write.Applied()
    case _ => false
  }

  /** What a step does to the store: it leaves the durable end there if it confirms, and the old value
      otherwise. What is durable only grows, with the history. */
  ghost predicate Moves(w: World, w': World, confirmed: bool)
    requires NonEmpty(w.hist) && NonEmpty(w'.hist)
  {
    && w'.storeNext == (if confirmed then DurableEnd(w'.hist) else w.storeNext)
    && |w.hist| <= |w'.hist| && DurableEnd(w.hist) <= DurableEnd(w'.hist)
    && (DurableEnd(w.hist) == DurableEnd(w'.hist) <==> |w.hist| == |w'.hist|)
  }

  lemma CaughtUpEnd(log: Log, hist: seq<Stored>)
    requires CaughtUp(log, hist) && NonEmpty(hist)
    ensures DurableEnd(hist) == log.nextOffset
  {
  }

  /** History that grows by at most one entry. */
  lemma EndGrows(hist: seq<Stored>, more: seq<Stored>)
    requires HistOk(hist) && HistOk(hist + more) && |more| <= 1
    ensures NonEmpty(hist) && NonEmpty(hist + more) && DurableEnd(hist) <= DurableEnd(hist + more)
    ensures DurableEnd(hist) == DurableEnd(hist + more) <==> |hist| == |hist + more|
  {
    hide Serializable;
    if more == [] {
      assert hist + more == hist;
    } else {
      var h := hist + more;
      FirstNotLast(h[|hist|]);
      if hist != [] { assert h[|hist| - 1] == hist[|hist| - 1]; }
    }
  }

  lemma InvHist(w: World)
    requires Inv(w)
    ensures HistOk(w.hist) && NonEmpty(w.hist)
  {
    hide LogOk, Coherent, StoreOk, Holds, HasBase;
    HistNonEmpty(w.hist);
  }

  /** A flush of a log that has something to flush or has just flushed it. */
  lemma FlushedMoves(w: World, log: Log, io: FlushIo, notify: Option<int>, write: Write)
    requires Inv(w) && w.log.Some? && LogOk(w.cfg, log, w.hist)
    requires log.buffer.batches != [] || CaughtUp(log, w.hist)
    requires notify == if FlushLocked(w.cfg, log, w.objs, w.cache, io).result.Ok? then Some(log.nextOffset - 1)
             else None
    ensures var w' := Flushed(w, log, io, notify, write);
            && Inv(w') && NonEmpty(w.hist) && NonEmpty(w'.hist)
            && Moves(w, w', notify.Some? && write.Applied())
            && (notify.Some? ==> CaughtUp(w'.log.value, w'.hist))
  {
    hide Inv, FlushLocked, LogOk, Trace, CaughtUp, Durable, HistOk, DurableEnd;
    FlushedKeeps(w, log, io, notify, write);
    var w' := Flushed(w, log, io, notify, write);
    InvHist(w);
    InvHist(w');
    TraceShape(log.buffer.batches, io);
    EndGrows(w.hist, Trace(log.buffer.batches, io));
    if notify.Some? { CaughtUpEnd(w'.log.value, w'.hist); }
  }

  lemma AppendMoves(w: World, log: Log, batch: RecordBatch, io: FlushIo, write: Write)
    requires Inv(w) && w.log == Some(log) && |batch.data| >= 8 && LogOk(w.cfg, Numbered(log, batch), w.hist)
    ensures var w1 := DoAppend(w, log, batch, io, write);
            var due := ShouldFlush(w.cfg.buffer, Numbered(log, batch).buffer, io.now);
            var r := AppendBatch(w.cfg, log, w.objs, w.cache, batch, io).result;
            && Inv(w1) && w1.log.Some? && w1.cfg == w.cfg && NonEmpty(w.hist) && NonEmpty(w1.hist)
            && Moves(w, w1, due && io.upload.Uploaded? && write.Applied())
            && (r.Ok? <==> (due ==> io.upload.Uploaded?))
            && (due && r.Ok? ==> CaughtUp(w1.log.value, w1.hist) && w1.log.value.buffer.batches == [])
            && (!due ==> w1.log == Some(Numbered(log, batch)) && w1.hist == w.hist)
  {
    hide Inv, FlushLocked, LogOk, Trace, CaughtUp, Durable, HistOk, DurableEnd, DoAppend, AppendBatch, ShouldFlush;
    AppendShape(w, log, batch, io, write);
    AppendKeeps(w, log, batch, io, write);
    InvHist(w);
    var log1 := Numbered(log, batch);
    if ShouldFlush(w.cfg.buffer, log1.buffer, io.now) {
      InvParts(w, log1);
      FlushKeeps(w.cfg, log1, w.objs, w.cache, w.hist, io);
      var f := FlushLocked(w.cfg, log1, w.objs, w.cache, io);
      var notify := if f.result.Ok? && f.result.value.Some? then Some(f.result.value.value.lastOffset) else None;
      FlushedMoves(w, log1, io, notify, write);
    }
  }

  lemma FlushMoves(w: World, io: FlushIo, write: Write)
    requires Inv(w) && w.log.Some?
    requires w.log.value.buffer.batches != [] || CaughtUp(w.log.value, w.hist)
    ensures var w' := DoFlush(w, w.log.value, io, write);
            var ok := Flush(w.cfg, w.log.value, w.objs, w.cache, io).result.Ok?;
            && NonEmpty(w.hist) && NonEmpty(w'.hist) && Moves(w, w', ok && write.Applied())
            && (ok <==> w.log.value.buffer.batches == [] || io.upload.Uploaded?)
  {
    hide FlushLocked, Trace, CaughtUp, Durable, HistOk, DurableEnd, ObjsOk, Coherent, LogOk, StoreOk, Moves;
    var log := w.log.value;
    InvParts(w, log);
    FlushKeeps(w.cfg, log, w.objs, w.cache, w.hist, io);
    NextPositive(w);
    hide Inv;
    var o := Flush(w.cfg, log, w.objs, w.cache, io);
    FlushedMoves(w, log, io, o.notify, write);
  }

  lemma NextPositive(w: World)
    requires Inv(w) && w.log.Some? && (w.log.value.buffer.batches != [] || CaughtUp(w.log.value, w.hist))
    ensures w.log.value.nextOffset >= 1
  {
    hide ObjsOk, Coherent, StoreOk, LiveRanges, LiveIndex;
    var log := w.log.value;
    if log.buffer.batches != [] {
      ContiguousOrder(log.buffer.batches, 0, |log.buffer.batches| - 1);
    } else {
      FirstNotLast(w.hist[|w.hist| - 1]);
    }
  }

  lemma MovesOn(w: World, w1: World, w2: World, first: bool, second: bool)
    requires NonEmpty(w.hist) && NonEmpty(w1.hist) && NonEmpty(w2.hist)
    requires Moves(w, w1, first) && Moves(w1, w2, second) && (first && !second ==> |w1.hist| == |w2.hist|)
    ensures Moves(w, w2, first || second)
  {
  }

  lemma ProduceMoves(w: World, a: Action)
    requires Inv(w) && Legal(w, a) && a.Produce? && w.log.Some?
    ensures NonEmpty(w.hist) && NonEmpty(Step(w, a).hist) && Moves(w, Step(w, a), Confirms(w, a))
  {
    hide Inv, LogOk, AppendBatch, DoAppend, DoFlush, Flush, Legal, ShouldFlush, Moves, CaughtUp, Patched;
    InvHist(w);
    match NewRecordBatchFromBytes(a.records)
    case Err(_) => StaysPut(w);
    case Ok(batch) =>
      var log := w.log.value;
      LegalNumbered(w, log, a, batch);
      AppendMoves(w, log, batch, a.append, a.write1);
      var w1 := DoAppend(w, log, batch, a.append, a.write1);
      var due := ShouldFlush(w.cfg.buffer, Numbered(log, batch).buffer, a.append.now);
      if AppendBatch(w.cfg, log, w.objs, w.cache, batch, a.append).result.Ok? && a.sync {
        NumberedNonEmpty(log, batch);
        FlushMoves(w1, a.flush, a.write2);
        var w2 := DoFlush(w1, w1.log.value, a.flush, a.write2);
        FlushHistory(w1, a.flush, a.write2);
        MovesOn(w, w1, w2, due && a.append.upload.Uploaded? && a.write1.Applied(),
                Flush(w1.cfg, w1.log.value, w1.objs, w1.cache, a.flush).result.Ok? && a.write2.Applied());
        MovesAcked(w, w2, Confirms(w, a), Patched(batch, log.nextOffset));
      }
  }

  lemma FlushHistory(w: World, io: FlushIo, write: Write)
    requires w.log.Some?
    ensures w.log.value.buffer.batches == [] ==> DoFlush(w, w.log.value, io, write).hist == w.hist
  {
    hide Flush;
  }

  lemma MovesAcked(w: World, w2: World, confirmed: bool, b: RecordBatch)
    requires NonEmpty(w.hist) && NonEmpty(w2.hist) && Moves(w, w2, confirmed)
    ensures Moves(w, w2.(acked := w2.acked + [b]), confirmed)
  {
  }

  lemma StaysPut(w: World)
    requires NonEmpty(w.hist)
    ensures Moves(w, w, false)
  {
  }

  /** A successful open whose write takes effect leaves the store at the durable end; without the write
      it leaves it alone. */
  lemma OpenMoves(w: World, a: Action)
    requires Inv(w) && Legal(w, a) && a.Open? && w.log.None?
    ensures NonEmpty(w.hist) && NonEmpty(Step(w, a).hist) && Moves(w, Step(w, a), Confirms(w, a))
  {
    hide ObjsOk, LogOk, Coherent, Restored, HistOk, Recovered;
    LegalOpen(w, a);
    ObjsHist(w.cfg, w.objs, w.hist);
    RestoredExactly(w.cfg, w.objs, w.hist, a.listing, NewLog(w.storeNext, a.now));
    RefusedUnlessIndexed(w.cfg, w.hist, NewLog(w.storeNext, a.now));
    HistAllLive(w.hist);
    HistNonEmpty(AllLive(w.hist));
    StoreBelowEnd(w);
    if Restored(NewLog(w.storeNext, a.now), w.objs, a.listing).Ok? {
      RecoveredLogOk(w.cfg, w.hist, w.storeNext, a.now);
      RecoveredLast(w.cfg, w.hist, NewLog(w.storeNext, a.now));
    }
  }

  lemma RecoveredLast(cfg: Config, hist: seq<Stored>, log: Log)
    requires NonEmpty(hist) && Recovered(cfg, hist, log).Ok?
    ensures Recovered(cfg, hist, log).value.1 + 1 == DurableEnd(hist)
  {
    hide LiveRanges, LiveIndex;
  }

  lemma StepMoves(w: World, a: Action)
    requires Inv(w) && Legal(w, a)
    ensures NonEmpty(w.hist) && NonEmpty(Step(w, a).hist) && Moves(w, Step(w, a), Confirms(w, a))
  {
    hide Inv, Legal, Moves, DoProduce, DoOpen, Read;
    InvHist(w);
    if a.Produce? && w.log.Some? {
      ProduceMoves(w, a);
    } else if a.Open? && w.log.None? {
      OpenMoves(w, a);
    } else {
      hide Step;
      OthersMove(w, a);
    }
  }

  lemma OthersMove(w: World, a: Action)
    requires Legal(w, a) && NonEmpty(w.hist) && !(a.Produce? && w.log.Some?) && !(a.Open? && w.log.None?)
    ensures !Confirms(w, a) && Moves(w, Step(w, a), false)
  {
    hide Read;
  }

  // ---------------------------------------------------------------------- over every run

  /** An acknowledged produce whose last write takes effect leaves the store right after its batch. */
  lemma StoredAfterAck(cfg: Config, actions: seq<Action>, states: seq<World>, i: nat)
    requires IsRun(cfg, actions, states) && i < |actions| && states[i + 1].acked != states[i].acked
    requires actions[i].Produce? ==> actions[i].write2.Applied()
    ensures var acked := states[i + 1].acked;
            acked != [] && states[i + 1].storeNext == acked[|acked| - 1].LastOffset() + 1
  {
    hide Inv, Legal, Step, Patched;
    RunKeeps(cfg, actions, states, i);
    StepAcks(states[i], actions[i]);
    AckedConfirms(states[i], actions[i]);
    StepMoves(states[i], actions[i]);
  }

  lemma AckedConfirms(w: World, a: Action)
    requires Inv(w) && Legal(w, a) && a.Produce? && w.log.Some? && NewRecordBatchFromBytes(a.records).Ok?
    requires Step(w, a).acked != w.acked && a.write2.Applied()
    ensures Confirms(w, a) && NonEmpty(Step(w, a).hist)
    ensures DurableEnd(Step(w, a).hist)
         == Patched(NewRecordBatchFromBytes(a.records).value, w.log.value.nextOffset).LastOffset() + 1
  {
    hide Inv, Legal, Step, ShouldFlush, Numbered, Patched;
    AcknowledgedExactlyWhen(w, a);
    StepMoves(w, a);
    AckedEnd(w, a);
  }

  /** After an acknowledged produce everything up to its batch is durable, and nothing beyond. */
  lemma AckedEnd(w: World, a: Action)
    requires Inv(w) && Legal(w, a) && a.Produce? && w.log.Some? && NewRecordBatchFromBytes(a.records).Ok?
    requires Step(w, a).acked != w.acked
    ensures NonEmpty(Step(w, a).hist)
    ensures DurableEnd(Step(w, a).hist)
         == Patched(NewRecordBatchFromBytes(a.records).value, w.log.value.nextOffset).LastOffset() + 1
  {
    hide Inv, LogOk, AppendBatch, DoAppend, DoFlush, Flush, Legal, ShouldFlush, Moves, CaughtUp, Patched, Numbered;
    var log, batch := w.log.value, NewRecordBatchFromBytes(a.records).value;
    LegalNumbered(w, log, a, batch);
    AppendMoves(w, log, batch, a.append, a.write1);
    var w1 := DoAppend(w, log, batch, a.append, a.write1);
    AckedThrough(w, log, batch, a);
    NumberedNonEmpty(log, batch);
    NumberedNext(log, batch);
    FlushEnds(w1, a.flush, a.write2);
    AppendNext(w, log, batch, a.append, a.write1);
  }

  lemma NumberedNext(log: Log, batch: RecordBatch)
    requires |batch.data| >= 8
    ensures Numbered(log, batch).nextOffset == Patched(batch, log.nextOffset).LastOffset() + 1
  {
    hide PutUint64;
  }

  lemma AppendNext(w: World, log: Log, batch: RecordBatch, io: FlushIo, write: Write)
    requires |batch.data| >= 8
    ensures DoAppend(w, log, batch, io, write).log.Some?
    ensures DoAppend(w, log, batch, io, write).log.value.nextOffset == Numbered(log, batch).nextOffset
  {
    hide Numbered, ShouldFlush, Trace, Built;
  }

  lemma FlushEnds(w: World, io: FlushIo, write: Write)
    requires Inv(w) && w.log.Some? && (w.log.value.buffer.batches != [] || CaughtUp(w.log.value, w.hist))
    ensures Flush(w.cfg, w.log.value, w.objs, w.cache, io).result.Ok? ==>
              && NonEmpty(DoFlush(w, w.log.value, io, write).hist)
              && DurableEnd(DoFlush(w, w.log.value, io, write).hist) == w.log.value.nextOffset
  {
    hide FlushLocked, Trace, CaughtUp, Durable, HistOk, DurableEnd, ObjsOk, Coherent, LogOk, StoreOk, Moves;
    var log := w.log.value;
    InvParts(w, log);
    FlushKeeps(w.cfg, log, w.objs, w.cache, w.hist, io);
    NextPositive(w);
    hide Inv;
    var o := Flush(w.cfg, log, w.objs, w.cache, io);
    FlushedMoves(w, log, io, o.notify, write);
    FlushedKeeps(w, log, io, o.notify, write);
    if o.result.Ok? { CaughtUpEnd(o.log, DoFlush(w, log, io, write).hist); }
  }

  /** A step of the run confirmed, and nothing has been stored since. */
  ghost predicate ConfirmedAt(actions: seq<Action>, states: seq<World>, p: int, i: nat)
    requires |states| == |actions| + 1 && i < |states|
    requires forall k :: 0 <= k < |actions| ==> Legal(states[k], actions[k])
  {
    0 <= p < i && Confirms(states[p], actions[p]) && |states[p + 1].hist| == |states[i].hist|
  }

  ghost predicate Confirmed(actions: seq<Action>, states: seq<World>, i: nat)
    requires |states| == |actions| + 1 && i < |states|
    requires forall k :: 0 <= k < |actions| ==> Legal(states[k], actions[k])
  {
    exists p :: ConfirmedAt(actions, states, p, i)
  }

  /** Exactly when the store knows everything that is durable, in every state of every run: when
      nothing has been stored yet, or a write has taken effect since the last segment was stored. */
  lemma {:induction false} CurrentExactlyWhen(cfg: Config, actions: seq<Action>, states: seq<World>, i: nat)
    requires IsRun(cfg, actions, states) && i < |states|
    ensures NonEmpty(states[i].hist)
    ensures states[i].storeNext == DurableEnd(states[i].hist) <==>
              states[i].hist == [] || Confirmed(actions, states, i)
  {
    hide Inv, Step, Legal, Confirms;
    RunKeeps(cfg, actions, states, i);
    StoreBelowEnd(states[i]);
    if i > 0 {
      var w, a, w' := states[i - 1], actions[i - 1], states[i];
      CurrentExactlyWhen(cfg, actions, states, i - 1);
      RunKeeps(cfg, actions, states, i - 1);
      StoreBelowEnd(w);
      StepMoves(w, a);
      if Confirms(w, a) {
        assert ConfirmedAt(actions, states, i - 1, i);
      } else if |w.hist| == |w'.hist| {
        if Confirmed(actions, states, i - 1) {
          var p :| ConfirmedAt(actions, states, p, i - 1);
          assert ConfirmedAt(actions, states, p, i);
        }
        if Confirmed(actions, states, i) {
          var p :| ConfirmedAt(actions, states, p, i);
          assert ConfirmedAt(actions, states, p, i - 1);
        }
      } else {
        NotConfirmed(cfg, actions, states, i);
      }
    }
  }

  lemma NotConfirmed(cfg: Config, actions: seq<Action>, states: seq<World>, i: nat)
    requires IsRun(cfg, actions, states) && 0 < i < |states|
    requires !Confirms(states[i - 1], actions[i - 1]) && |states[i - 1].hist| < |states[i].hist|
    ensures !Confirmed(actions, states, i)
  {
    hide Inv, Step, Legal, Confirms;
    if p :| ConfirmedAt(actions, states, p, i) {
      HistoryGrows(cfg, actions, states, p + 1, i - 1);
    }
  }

  lemma {:induction false} HistoryGrows(cfg: Config, actions: seq<Action>, states: seq<World>, i: nat, j: nat)
    requires IsRun(cfg, actions, states) && i <= j < |states|
    ensures |states[i].hist| <= |states[j].hist|
    ensures states[i].storeNext <= states[j].storeNext
    decreases j - i
  {
    hide Inv, Step, Legal, Confirms;
    if i < j {
      HistoryGrows(cfg, actions, states, i, j - 1);
      RunKeeps(cfg, actions, states, j - 1);
      StoreBelowEnd(states[j - 1]);
      StepMoves(states[j - 1], actions[j - 1]);
    }
  }

  /** What is acknowledged can be consumed. After an acknowledgement whose last write took effect,
      a fetch at any offset of the batch, without a limit and with working downloads, returns the
      batch whole: in every later state with an open log, whatever failed or crashed in between. */
  lemma AckedIsFetched(cfg: Config, actions: seq<Action>, states: seq<World>, i: nat, j: nat, offset: int,
                       maxBytes: int)
    requires IsRun(cfg, actions, states) && i < j < |states| && states[j].log.Some? && maxBytes <= 0
    requires states[i + 1].acked != states[i].acked && (actions[i].Produce? ==> actions[i].write2.Applied())
    requires var acked := states[i + 1].acked;
             acked != [] ==> acked[|acked| - 1].baseOffset <= offset <= acked[|acked| - 1].LastOffset()
    ensures var w, acked := states[j], states[i + 1].acked;
            var a := FetchPartition(w, w.log.value, offset, maxBytes, Known(w.storeNext), true);
            && acked != [] && a.code == NoError && a.highWatermark == w.storeNext
            && FromStored(w.hist, a.records, acked[|acked| - 1])
  {
    hide Inv, Step, Legal, Read, FromStored;
    StoredAfterAck(cfg, actions, states, i);
    HistoryGrows(cfg, actions, states, i + 1, j);
    var acked := states[i + 1].acked;
    AckedStaysReadable(cfg, actions, states, i + 1, j, acked[|acked| - 1], offset, maxBytes);
  }

  /** When an open attempt succeeds, and what it leaves: exactly when the store and the objects can be
      read and every segment object has an index object. The log then continues right after what is
      durable, and the store says so if the write takes effect. */
  lemma OpensExactlyWhen(cfg: Config, actions: seq<Action>, states: seq<World>, i: nat)
    requires IsRun(cfg, actions, states) && i < |actions| && actions[i].Open? && states[i].log.None?
    ensures var w, a, w' := states[i], actions[i], states[i + 1];
            && (w'.log.Some? <==> a.readable && a.reachable && forall b :: b in w.objs.data ==> b in w.objs.index)
            && NonEmpty(w'.hist)
            && (w'.log.Some? ==> w'.log.value.nextOffset == DurableEnd(w'.hist) && w'.log.value.buffer.batches == []
                                 && (forall k :: 0 <= k < |w'.hist| ==> w'.hist[k].live)
                                 && w'.storeNext == if a.write.Applied() then DurableEnd(w'.hist) else w.storeNext)
  {
    hide Inv, Restored, Legal, DoOpen, DurableEnd;
    RunKeeps(cfg, actions, states, i);
    LegalOpen(states[i], actions[i]);
    ReopensExactlyWhen(cfg, actions, states, i, actions[i].listing, actions[i].now);
    StepMoves(states[i], actions[i]);
    OpenedLog(states[i], actions[i]);
  }

  lemma OpenedLog(w: World, a: Action)
    requires Inv(w) && a.Open? && Lists(a.listing, w.objs) && w.log.None?
    ensures var w' := DoOpen(w, a);
            && (w'.log.Some? <==>
                  a.readable && a.reachable && Restored(NewLog(w.storeNext, a.now), w.objs, a.listing).Ok?)
            && (w'.log.Some? ==> && NonEmpty(w'.hist) && w'.log.value.nextOffset == DurableEnd(w'.hist)
                                 && w'.log.value.buffer.batches == []
                                 && forall k :: 0 <= k < |w'.hist| ==> w'.hist[k].live)
  {
    hide ObjsOk, LogOk, Coherent, Restored, HistOk, Recovered;
    ObjsHist(w.cfg, w.objs, w.hist);
    RestoredExactly(w.cfg, w.objs, w.hist, a.listing, NewLog(w.storeNext, a.now));
    RefusedUnlessIndexed(w.cfg, w.hist, NewLog(w.storeNext, a.now));
    HistAllLive(w.hist);
    HistNonEmpty(AllLive(w.hist));
    if Restored(NewLog(w.storeNext, a.now), w.objs, a.listing).Ok? {
      RecoveredLogOk(w.cfg, w.hist, w.storeNext, a.now);
    }
  }
}
