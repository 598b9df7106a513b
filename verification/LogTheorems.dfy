/** What the partition log guarantees over whole runs. */
module LogTheorems {
  import opened Bytes
  import opened Wrappers
  import opened RecordBatches
  import opened WriteBuffers
  import opened SparseIndex
  import opened Segments
  import opened ObjectStore
  import opened ReadPath
  import opened PartitionLogs
  import opened LogMachine
  import opened LogInvariant
  import opened LogSteps
  import opened LogRecovery
  import opened LogRuns
  import LRU = SegmentCache

  // -------------------------------------------------------------- looking up a segment

  ghost predicate LiveRange(hist: seq<Stored>, s: SegmentRange) {
    exists i :: 0 <= i < |hist| && hist[i].batches != [] && hist[i].live && s == RangeOf(hist[i])
  }

  lemma LiveRangeSnoc(front: seq<Stored>, last: Stored, s: SegmentRange)
    requires last.batches != []
    ensures LiveRange(front + [last], s) <==> LiveRange(front, s) || (last.live && s == RangeOf(last))
  {
    var hist := front + [last];
    assert hist[|front|] == last;
    if LiveRange(front, s) {
      var i :| 0 <= i < |front| && front[i].batches != [] && front[i].live && s == RangeOf(front[i]);
      assert hist[i] == front[i];
    }
    if LiveRange(hist, s) {
      var i :| 0 <= i < |hist| && hist[i].batches != [] && hist[i].live && s == RangeOf(hist[i]);
      assert i == |front| || hist[i] == front[i];
    }
  }

  lemma {:induction false} LiveRangesMembers(hist: seq<Stored>, s: SegmentRange)
    requires NonEmpty(hist)
    ensures s in LiveRanges(hist) <==> LiveRange(hist, s)
  {
    hide LiveRange;
    if hist == [] {
      LiveRangeNothing(s);
    } else {
      var n := |hist| - 1;
      LiveRangesMembers(hist[..n], s);
      assert hist == hist[..n] + [hist[n]];
      LiveRangeSnoc(hist[..n], hist[n], s);
    }
  }

  lemma LiveRangeNothing(s: SegmentRange)
    ensures !LiveRange([], s)
  {
  }

  lemma {:induction false} LiveIndexAt(cfg: Config, hist: seq<Stored>, i: nat)
    requires HistOk(hist) && i < |hist| && hist[i].live
    ensures var m := LiveIndex(cfg, hist);
            Base(hist[i]) in m && m[Base(hist[i])] == IndexOf(cfg.interval, hist[i].batches).entries
  {
    hide IndexOf, Serializable;
    var n := |hist| - 1;
    if i < n {
      LiveIndexAt(cfg, hist[..n], i);
      FirstNotLast(hist[i]);
    }
  }

  /** Any offset of a live segment leads the log to that segment and its index. */
  lemma LiveLookup(cfg: Config, log: Log, hist: seq<Stored>, i: nat, offset: int)
    requires LogOk(cfg, log, hist) && i < |hist| && hist[i].live && Base(hist[i]) <= offset <= Last(hist[i])
    ensures FindSegment(log.segments, offset) == Some(RangeOf(hist[i]))
    ensures EntriesOf(log, Base(hist[i])) == IndexOf(cfg.interval, hist[i].batches).entries
  {
    hide LiveRanges, LiveIndex, IndexOf, StoredOk, BufferOk, FindSegment;
    HistNonEmpty(hist);
    LiveIndexAt(cfg, hist, i);
    var mine := RangeOf(hist[i]);
    assert LiveRange(hist, mine);
    LiveRangesMembers(hist, mine);
    assert mine in log.segments;
    match FindSegment(log.segments, offset)
    case None =>
    case Some(s) =>
      LiveRangesMembers(hist, s);
      var j :| 0 <= j < |hist| && hist[j].batches != [] && hist[j].live && s == RangeOf(hist[j]);
      OneSegment(hist, i, j, offset);
  }

  lemma StoredDescribed(cfg: Config, objs: Objects, s: Stored)
    requires StoredOk(s) && Holds(cfg, objs, s)
    ensures Describes(RangeOf(s), IndexOf(cfg.interval, s.batches).entries, objs.data[Base(s)], s.batches, s.stamp)
  {
    StoredIndexParses(cfg.interval, s);
    hide IndexOf, ParsedIndex, IndexBytes;
  }

  /** Every segment a log lists is stored at its recorded size. */
  lemma LogSized(w: World)
    requires Inv(w) && w.log.Some?
    ensures Sized(w.log.value, w.objs)
  {
    hide LiveRanges, LiveIndex, IndexOf, IndexBytes, Serializable, BufferOk, Coherent, Durable;
    forall s | s in w.log.value.segments ensures s.baseOffset in w.objs.data && |w.objs.data[s.baseOffset]| == s.size {
      LiveRangesMembers(w.hist, s);
      var j :| 0 <= j < |w.hist| && w.hist[j].batches != [] && w.hist[j].live && s == RangeOf(w.hist[j]);
      assert Holds(w.cfg, w.objs, w.hist[j]);
    }
  }

  // --------------------------------------------------------- reads of reachable states

  /** In every state of every run a read does not depend on the cache: hit, ranged download and
      full download give the same bytes or the same out-of-range error. */
  lemma ReadsAgree(cfg: Config, actions: seq<Action>, states: seq<World>, i: nat, offset: int, maxBytes: int)
    requires IsRun(cfg, actions, states) && i < |states| && states[i].log.Some?
    ensures var w := states[i];
            && Read(w.cfg, w.log.value, w.objs, w.cache, offset, maxBytes, true).1
                == PlainRead(w.log.value, w.objs, offset, maxBytes)
            && Read(w.cfg, w.log.value, w.objs, [], offset, maxBytes, true).1
                == PlainRead(w.log.value, w.objs, offset, maxBytes)
  {
    RunKeeps(cfg, actions, states, i);
    var w := states[i];
    LogSized(w);
    ReadPathIndependent(w.cfg, w.log.value, w.objs, w.cache, offset, maxBytes);
    ReadPathIndependent(w.cfg, w.log.value, w.objs, [], offset, maxBytes);
  }

  /** In every state of every run, a read answers out of range exactly when no listed segment
      covers the offset; otherwise it returns whole consecutive batches from one at or before the
      offset, cut at the byte limit. */
  lemma ReadsBatches(w: World, offset: int, maxBytes: int) returns (k: nat, i: nat)
    requires Inv(w) && w.log.Some?
    ensures var r := Read(w.cfg, w.log.value, w.objs, w.cache, offset, maxBytes, true).1;
            if r.Ok?
            then k < |w.hist| && i < |w.hist[k].batches| && w.hist[k].live
                 && Base(w.hist[k]) <= offset <= Last(w.hist[k])
                 && w.hist[k].batches[i].baseOffset <= offset
                 && r.value == Limited(Concat(w.hist[k].batches[i..]), maxBytes)
            else r == Err(OffsetOutOfRange)
                 && forall j :: 0 <= j < |w.hist| && w.hist[j].live ==> !(Base(w.hist[j]) <= offset <= Last(w.hist[j]))
  {
    hide Inv, Coherent, Sized, Read, FindSegment, Concat, Limited;
    k, i := 0, 0;
    InvBasics(w);
    LogSized(w);
    ReadPathIndependent(w.cfg, w.log.value, w.objs, w.cache, offset, maxBytes);
    if j :| 0 <= j < |w.hist| && w.hist[j].live && Base(w.hist[j]) <= offset <= Last(w.hist[j]) {
      k := j;
      i := PlainReadAt(w, j, offset, maxBytes);
    } else {
      NotListed(w, offset);
    }
  }

  lemma InvBasics(w: World)
    requires Inv(w)
    ensures Coherent(w.cfg, w.cache, w.objs) && NonEmpty(w.hist)
  {
  }

  lemma PlainReadAt(w: World, k: nat, offset: int, maxBytes: int) returns (i: nat)
    requires Inv(w) && w.log.Some? && k < |w.hist| && w.hist[k].live && Base(w.hist[k]) <= offset <= Last(w.hist[k])
    ensures i < |w.hist[k].batches| && w.hist[k].batches[i].baseOffset <= offset
    ensures PlainRead(w.log.value, w.objs, offset, maxBytes) == Ok(Limited(Concat(w.hist[k].batches[i..]), maxBytes))
  {
    hide LiveRanges, LiveIndex, IndexOf, Serializable, BufferOk, FindSegment, SliceCached, Concat, Limited,
         SegmentBytes, IndexBytes;
    var s := w.hist[k];
    LiveLookup(w.cfg, w.log.value, w.hist, k, offset);
    StoredDescribed(w.cfg, w.objs, s);
    i := SegmentRead(RangeOf(s), IndexOf(w.cfg.interval, s.batches).entries, w.objs.data[Base(s)], s.batches, s.stamp,
                     offset, maxBytes);
  }

  lemma NotListed(w: World, offset: int)
    requires Inv(w) && w.log.Some?
    requires forall j :: 0 <= j < |w.hist| && w.hist[j].live ==> !(Base(w.hist[j]) <= offset <= Last(w.hist[j]))
    ensures FindSegment(w.log.value.segments, offset).None?
  {
    hide LiveRanges, LiveIndex, IndexOf, Serializable, BufferOk, ObjsOk, Coherent;
    match FindSegment(w.log.value.segments, offset)
    case None =>
    case Some(s) =>
      LiveRangesMembers(w.hist, s);
  }

  // --------------------------------------------------------------------- durability

  lemma ProduceAcks(w: World, log: Log, a: Action)
    requires a.Produce?
    ensures DoProduce(w, log, a).acked == w.acked
            || (NewRecordBatchFromBytes(a.records).Ok?
                && DoProduce(w, log, a).acked
                    == w.acked + [Patched(NewRecordBatchFromBytes(a.records).value, log.nextOffset)])
  {
    hide AppendBatch, Flush, Patched;
  }

  /** A step acknowledges at most one batch, numbered with the log's next offset. */
  lemma StepAcks(w: World, a: Action)
    requires Legal(w, a)
    ensures || Step(w, a).acked == w.acked
            || (a.Produce? && w.log.Some? && NewRecordBatchFromBytes(a.records).Ok?
                && Step(w, a).acked == w.acked + [Patched(NewRecordBatchFromBytes(a.records).value,
                                                          w.log.value.nextOffset)])
  {
    hide DoProduce, DoOpen, Legal, Read, Patched;
    if a.Produce? && w.log.Some? { ProduceAcks(w, w.log.value, a); }
    if a.Open? && w.log.None? { OpenKeepsAcked(w, a); }
  }

  /** When a produce is acknowledged, in any reachable state: exactly when it is synchronous and
      the flush that stores its batch, the append's own if the buffer is due and the explicit one
      otherwise, uploads both objects. */
  lemma AcknowledgedExactlyWhen(w: World, a: Action)
    requires Inv(w) && Legal(w, a) && a.Produce? && w.log.Some? && NewRecordBatchFromBytes(a.records).Ok?
    ensures var log, batch := w.log.value, NewRecordBatchFromBytes(a.records).value;
            var due := ShouldFlush(w.cfg.buffer, Numbered(log, batch).buffer, a.append.now);
            var stored := if due then a.append.upload.Uploaded? else a.flush.upload.Uploaded?;
            Step(w, a).acked == (if a.sync && stored then w.acked + [Patched(batch, log.nextOffset)] else w.acked)
  {
    hide Inv, LogOk, ShouldFlush, DoAppend, DoFlush, AppendBatch, Flush, Numbered, Patched, Legal, FlushLocked,
         Coherent, ObjsOk;
    var log, batch := w.log.value, NewRecordBatchFromBytes(a.records).value;
    LegalNumbered(w, log, a, batch);
    var log1 := Numbered(log, batch);
    NumberedNonEmpty(log, batch);
    InvParts(w, log1);
    FlushKeeps(w.cfg, log1, w.objs, w.cache, w.hist, a.append);
    FlushKeeps(w.cfg, log1, w.objs, w.cache, w.hist, a.flush);
    AppendShape(w, log, batch, a.append, a.write1);
    var w1 := DoAppend(w, log, batch, a.append, a.write1);
    FlushAnswers(w1, w1.log.value, a.flush);
    AckedThrough(w, log, batch, a);
  }

  lemma NumberedNonEmpty(log: Log, batch: RecordBatch)
    requires |batch.data| >= 8
    ensures Numbered(log, batch).buffer.batches != []
  {
  }

  /** Flushing nothing succeeds; flushing something succeeds with its uploads. */
  lemma FlushAnswers(w: World, log: Log, io: FlushIo)
    ensures Flush(w.cfg, log, w.objs, w.cache, io).result.Ok?
            <==> FlushLocked(w.cfg, log, w.objs, w.cache, io).result.Ok?
    ensures log.buffer.batches == [] ==> FlushLocked(w.cfg, log, w.objs, w.cache, io).result.Ok?
  {
    hide Built, ArtifactOf;
  }

  lemma AckedThrough(w: World, log: Log, batch: RecordBatch, a: Action)
    requires a.Produce? && |batch.data| >= 8
    ensures DoAppend(w, log, batch, a.append, a.write1).acked == w.acked
    ensures DoAppend(w, log, batch, a.append, a.write1).cfg == w.cfg
    ensures var w1 := DoAppend(w, log, batch, a.append, a.write1);
            w1.log.Some? && DoFlush(w1, w1.log.value, a.flush, a.write2).acked == w.acked
  {
    hide AppendBatch, Flush, Numbered, ShouldFlush, Trace;
  }

  lemma {:induction false} AckedGrows(cfg: Config, actions: seq<Action>, states: seq<World>, i: nat, j: nat)
    requires IsRun(cfg, actions, states) && i <= j < |states|
    ensures states[i].acked <= states[j].acked
    decreases j - i
  {
    hide Step, Legal;
    if i < j {
      AckedGrows(cfg, actions, states, i, j - 1);
      StepAcks(states[j - 1], actions[j - 1]);
    }
  }

  lemma OpenKeepsAcked(w: World, a: Action)
    requires a.Open? && Legal(w, a)
    ensures DoOpen(w, a).acked == w.acked
  {
    hide Restored;
  }

  /** The bytes are the tail of a stored, listed segment's batches, with batch `b` whole in it. */
  ghost predicate FromStored(hist: seq<Stored>, s: bytes, b: RecordBatch) {
    exists n :: 0 <= n < |hist| && hist[n].live && Carries(s, hist[n].batches, b)
  }

  /** A durable batch of an open log is found by an unlimited read at any of its offsets. */
  lemma DurableIsRead(w: World, b: RecordBatch, offset: int, maxBytes: int)
    requires Inv(w) && w.log.Some? && Durable(b, true, w.hist)
    requires b.baseOffset <= offset <= b.LastOffset() && maxBytes <= 0
    ensures var r := Read(w.cfg, w.log.value, w.objs, w.cache, offset, maxBytes, true).1;
            r.Ok? && FromStored(w.hist, r.value, b)
  {
    hide LiveRanges, LiveIndex, IndexOf, BufferOk, Read, FindSegment, SliceCached, Concat, Carries, Serializable;
    hide IndexBytes, SegmentBytes;
    var i :| 0 <= i < |w.hist| && b in w.hist[i].batches && w.hist[i].indexed && w.hist[i].live;
    var s := w.hist[i];
    var k :| 0 <= k < |s.batches| && s.batches[k] == b;
    WithinSegment(s, k);
    LogSized(w);
    ReadPathIndependent(w.cfg, w.log.value, w.objs, w.cache, offset, maxBytes);
    LiveLookup(w.cfg, w.log.value, w.hist, i, offset);
    StoredDescribed(w.cfg, w.objs, s);
    SegmentReadCarries(RangeOf(s), IndexOf(w.cfg.interval, s.batches).entries, w.objs.data[Base(s)], s.batches,
                       s.stamp, k, offset, maxBytes);
  }

  /** Durability. A batch answered with error 0 by a synchronous produce stays readable at exactly
      the offsets it was given: in every later state with an open log, after any number of upload
      failures, store failures, crashes and reopens, with any cache content. */
  lemma AckedStaysReadable(cfg: Config, actions: seq<Action>, states: seq<World>, i: nat, j: nat, b: RecordBatch,
                           offset: int, maxBytes: int)
    requires IsRun(cfg, actions, states) && i <= j < |states| && b in states[i].acked
    requires states[j].log.Some? && b.baseOffset <= offset <= b.LastOffset() && maxBytes <= 0
    ensures var w := states[j];
            var r := Read(w.cfg, w.log.value, w.objs, w.cache, offset, maxBytes, true).1;
            r.Ok? && FromStored(w.hist, r.value, b)
  {
    AckedGrows(cfg, actions, states, i, j);
    RunKeeps(cfg, actions, states, j);
    hide IsRun, Read, FromStored;
    DurableIsRead(states[j], b, offset, maxBytes);
  }

  /** The segment objects that cover offset `o`, by what their footers say. */
  ghost predicate Covers(objs: Objects, base: int, o: int) {
    Footed(objs, base) && RestoredRange(objs, base).baseOffset <= o <= RestoredRange(objs, base).lastOffset
  }

  /** No overlap. In every later state exactly one segment object covers any offset of an
      acknowledged batch, whether or not the log is open. */
  lemma AckedCoveredOnce(cfg: Config, actions: seq<Action>, states: seq<World>, i: nat, j: nat, b: RecordBatch,
                         offset: int) returns (base: int)
    requires IsRun(cfg, actions, states) && i <= j < |states| && b in states[i].acked
    requires b.baseOffset <= offset <= b.LastOffset()
    ensures Covers(states[j].objs, base, offset)
    ensures forall other :: Covers(states[j].objs, other, offset) ==> other == base
  {
    AckedGrows(cfg, actions, states, i, j);
    RunKeeps(cfg, actions, states, j);
    var w := states[j];
    hide IsRun;
    base := CoveredOnce(w, b, offset);
  }

  lemma CoveredOnce(w: World, b: RecordBatch, offset: int) returns (base: int)
    requires Inv(w) && Durable(b, w.log.Some?, w.hist) && b.baseOffset <= offset <= b.LastOffset()
    ensures Covers(w.objs, base, offset)
    ensures forall other :: Covers(w.objs, other, offset) ==> other == base
  {
    hide LogOk, Coherent, StoreOk, Holds, HasBase, Serializable, Covers;
    var i :| 0 <= i < |w.hist| && b in w.hist[i].batches && w.hist[i].indexed;
    var k :| 0 <= k < |w.hist[i].batches| && w.hist[i].batches[k] == b;
    base := Base(w.hist[i]);
    WithinSegment(w.hist[i], k);
    CoveringSegment(w.cfg, w.objs, w.hist, i, offset);
    forall other | Covers(w.objs, other, offset) ensures other == base {
      SameSegment(w.cfg, w.objs, w.hist, i, other, offset);
    }
  }

  lemma CoveringSegment(cfg: Config, objs: Objects, hist: seq<Stored>, i: nat, offset: int)
    requires ObjsOk(cfg, objs, hist) && i < |hist|
    ensures Covers(objs, Base(hist[i]), offset) <==> Base(hist[i]) <= offset <= Last(hist[i])
  {
    hide Footed, Serializable, HasBase;
    StoredFooterParses(cfg, objs, hist[i]);
    hide Holds;
  }

  lemma SameSegment(cfg: Config, objs: Objects, hist: seq<Stored>, i: nat, other: int, offset: int)
    requires ObjsOk(cfg, objs, hist) && i < |hist| && Base(hist[i]) <= offset <= Last(hist[i])
             && Covers(objs, other, offset)
    ensures other == Base(hist[i])
  {
    hide Covers, Holds, Serializable, HistOk;
    CoversStored(objs, other, offset);
    assert HasBase(hist, other);
    var j :| 0 <= j < |hist| && hist[j].batches != [] && Base(hist[j]) == other;
    CoveringSegment(cfg, objs, hist, j, offset);
    OneSegment(hist, i, j, offset);
  }

  lemma CoversStored(objs: Objects, base: int, offset: int)
    requires Covers(objs, base, offset)
    ensures base in objs.data
  {
  }

  lemma OneSegment(hist: seq<Stored>, i: nat, j: nat, offset: int)
    requires HistOk(hist) && i < |hist| && j < |hist|
    requires Base(hist[i]) <= offset <= Last(hist[i]) && Base(hist[j]) <= offset <= Last(hist[j])
    ensures i == j
  {
  }

  lemma WithinSegment(s: Stored, k: nat)
    requires StoredOk(s) && k < |s.batches|
    ensures Base(s) <= s.batches[k].baseOffset <= s.batches[k].LastOffset() <= Last(s)
  {
    ContiguousOrder(s.batches, 0, k);
    if k < |s.batches| - 1 { ContiguousOrder(s.batches, k + 1, |s.batches| - 1); }
  }

  ghost predicate Ascending(acked: seq<RecordBatch>) {
    forall i, j :: 0 <= i < j < |acked| ==> acked[i].LastOffset() < acked[j].baseOffset
  }

  lemma DurableBelow(w: World, b: RecordBatch)
    requires Inv(w) && w.log.Some? && Durable(b, true, w.hist)
    ensures b.LastOffset() < w.log.value.nextOffset
  {
    hide ObjsOk, Coherent, StoreOk, LiveRanges, LiveIndex;
    var i :| 0 <= i < |w.hist| && b in w.hist[i].batches && w.hist[i].indexed;
    var k :| 0 <= k < |w.hist[i].batches| && w.hist[i].batches[k] == b;
    WithinSegment(w.hist[i], k);
  }

  /** Acknowledged batches never share an offset: they are acknowledged in offset order. */
  lemma {:induction false} AckedAscending(cfg: Config, actions: seq<Action>, states: seq<World>, i: nat)
    requires IsRun(cfg, actions, states) && i < |states|
    ensures Ascending(states[i].acked)
  {
    hide Step, Legal, Inv, Patched;
    if i > 0 {
      AckedAscending(cfg, actions, states, i - 1);
      RunKeeps(cfg, actions, states, i - 1);
      var w, a := states[i - 1], actions[i - 1];
      StepAcks(w, a);
      if a.Produce? && w.log.Some? && NewRecordBatchFromBytes(a.records).Ok? { AscendingGrows(w, a); }
    }
  }

  lemma AscendingGrows(w: World, a: Action)
    requires Inv(w) && w.log.Some? && Ascending(w.acked) && a.Produce? && NewRecordBatchFromBytes(a.records).Ok?
    ensures Ascending(w.acked + [Patched(NewRecordBatchFromBytes(a.records).value, w.log.value.nextOffset)])
  {
    hide ObjsOk, Coherent, StoreOk, LogOk, Durable, PutUint64;
    forall i | 0 <= i < |w.acked| ensures w.acked[i].LastOffset() < w.log.value.nextOffset {
      DurableBelow(w, w.acked[i]);
    }
  }

  // -------------------------------------------------------- runs without failed uploads

  predicate Clean(a: Action) {
    a.Produce? ==> a.append.upload.Uploaded? && a.flush.upload.Uploaded?
  }

  /** The segments tile [0, durable end) and all have their index objects; an open log lists all of
      them and owes exactly what follows. */
  ghost predicate Tiles(log: Option<Log>, hist: seq<Stored>) {
    && NonEmpty(hist)
    && AllIndexed(hist)
    && (hist != [] ==> Base(hist[0]) == 0)
    && (forall i :: 0 < i < |hist| ==> Base(hist[i]) == Last(hist[i - 1]) + 1)
    && (log.Some? ==> FirstFree(log.value) == DurableEnd(hist)
                      && forall i :: 0 <= i < |hist| ==> hist[i].live)
  }

  lemma TilesFlushed(w: World, log: Log, io: FlushIo, notify: Option<int>, write: Write)
    requires Inv(w) && LogOk(w.cfg, log, w.hist) && Tiles(Some(log), w.hist) && io.upload.Uploaded?
    ensures Tiles(Flushed(w, log, io, notify, write).log, Flushed(w, log, io, notify, write).hist)
  {
    hide Inv, FlushLocked, ObjsOk, Coherent, Tiles, Trace, BufferOk, LogOk;
    assert ObjsOk(w.cfg, w.objs, w.hist) && Coherent(w.cfg, w.cache, w.objs) && BufferOk(log) by { InvParts(w, log); }
    FlushKeeps(w.cfg, log, w.objs, w.cache, w.hist, io);
    var o := FlushLocked(w.cfg, log, w.objs, w.cache, io);
    if log.buffer.batches == [] {
      TraceNothing(io);
      assert w.hist + [] == w.hist;
      TilesSameFree(log, o.log, w.hist);
    } else {
      TraceShape(log.buffer.batches, io);
      BufferStored(log, io.stamp, true, true);
      TilesSnoc(log, o.log, w.hist, Stored(log.buffer.batches, io.stamp, true, true));
    }
  }

  lemma InvParts(w: World, log: Log)
    requires Inv(w) && LogOk(w.cfg, log, w.hist)
    ensures ObjsOk(w.cfg, w.objs, w.hist) && Coherent(w.cfg, w.cache, w.objs) && BufferOk(log)
  {
  }

  lemma TraceNothing(io: FlushIo)
    ensures Trace([], io) == []
  {
  }

  lemma TilesSnoc(log: Log, log': Log, hist: seq<Stored>, s: Stored)
    requires Tiles(Some(log), hist) && s.batches != [] && s.indexed && s.live
    requires Base(s) == FirstFree(log) && Last(s) + 1 == FirstFree(log')
    ensures Tiles(Some(log'), hist + [s])
  {
  }

  lemma TilesAppend(w: World, log: Log, batch: RecordBatch, io: FlushIo, write: Write)
    requires Inv(w) && w.log == Some(log) && |batch.data| >= 8 && LogOk(w.cfg, Numbered(log, batch), w.hist)
    requires Tiles(w.log, w.hist) && io.upload.Uploaded?
    ensures Tiles(DoAppend(w, log, batch, io, write).log, DoAppend(w, log, batch, io, write).hist)
  {
    hide Inv, LogOk, FlushLocked, DoAppend, AppendBatch, ShouldFlush;
    AppendShape(w, log, batch, io, write);
    var log1 := Numbered(log, batch);
    assert FirstFree(log1) == FirstFree(log);
    if ShouldFlush(w.cfg.buffer, log1.buffer, io.now) {
      hide Tiles;
      var f := FlushLocked(w.cfg, log1, w.objs, w.cache, io);
      assert Tiles(Some(log1), w.hist) by { TilesSameFree(log, log1, w.hist); }
      var notify := if f.result.Ok? && f.result.value.Some? then Some(f.result.value.value.lastOffset) else None;
      TilesFlushed(w, log1, io, notify, write);
    }
  }

  lemma TilesSameFree(log: Log, log1: Log, hist: seq<Stored>)
    requires Tiles(Some(log), hist) && FirstFree(log1) == FirstFree(log)
    ensures Tiles(Some(log1), hist)
  {
  }

  lemma TilesFlush(w: World, io: FlushIo, write: Write)
    requires Inv(w) && w.log.Some? && Tiles(w.log, w.hist) && io.upload.Uploaded?
    ensures Tiles(DoFlush(w, w.log.value, io, write).log, DoFlush(w, w.log.value, io, write).hist)
  {
    hide FlushLocked, ObjsOk, Coherent, LogOk, StoreOk, Tiles, Trace;
    var o := Flush(w.cfg, w.log.value, w.objs, w.cache, io);
    TilesFlushed(w, w.log.value, io, o.notify, write);
  }

  lemma TilesProduce(w: World, log: Log, a: Action)
    requires Inv(w) && w.log == Some(log) && a.Produce? && Legal(w, a) && Clean(a) && Tiles(w.log, w.hist)
    ensures Tiles(DoProduce(w, log, a).log, DoProduce(w, log, a).hist)
  {
    hide Inv, LogOk, Durable, Patched, CaughtUp, AppendBatch, DoAppend, DoFlush, Flush, Legal, Tiles;
    match NewRecordBatchFromBytes(a.records)
    case Err(_) =>
    case Ok(batch) =>
      LegalNumbered(w, log, a, batch);
      AppendKeeps(w, log, batch, a.append, a.write1);
      TilesAppend(w, log, batch, a.append, a.write1);
      TilesFlush(DoAppend(w, log, batch, a.append, a.write1), a.flush, a.write2);
  }

  lemma TilesOpen(w: World, a: Action)
    requires Inv(w) && w.log.None? && a.Open? && Lists(a.listing, w.objs) && Tiles(w.log, w.hist)
    ensures Tiles(DoOpen(w, a).log, DoOpen(w, a).hist)
  {
    hide ObjsOk, LogOk, Coherent, Restored, HistOk, Recovered;
    ObjsHist(w.cfg, w.objs, w.hist);
    RestoredExactly(w.cfg, w.objs, w.hist, a.listing, NewLog(w.storeNext, a.now));
    RecoveredLogOk(w.cfg, w.hist, w.storeNext, a.now);
    HistAllLive(w.hist);
  }

  lemma TilesStep(w: World, a: Action)
    requires Inv(w) && Legal(w, a) && Clean(a) && Tiles(w.log, w.hist)
    ensures Tiles(Step(w, a).log, Step(w, a).hist)
  {
    hide Inv, DoProduce, DoOpen, Read, LRU.Put, LRU.Got, Clean;
    if a.Produce? && w.log.Some? {
      TilesProduce(w, w.log.value, a);
    } else if a.Open? && w.log.None? {
      TilesOpen(w, a);
    }
  }

  /** Without failed uploads the segments tile [0, durable end) in every state, however the
      metadata store fails and the broker crashes and reopens. */
  lemma {:induction false} CleanRunTiles(cfg: Config, actions: seq<Action>, states: seq<World>, i: nat)
    requires IsRun(cfg, actions, states) && i < |states|
    requires forall j :: 0 <= j < i ==> Clean(actions[j])
    ensures Tiles(states[i].log, states[i].hist)
    ensures 0 <= states[i].storeNext <= DurableEnd(states[i].hist)
  {
    RunKeeps(cfg, actions, states, i);
    if i > 0 {
      CleanRunTiles(cfg, actions, states, i - 1);
      RunKeeps(cfg, actions, states, i - 1);
      hide Inv, Step, Legal, Tiles;
      TilesStep(states[i - 1], actions[i - 1]);
    }
    StoreBelowEnd(states[i]);
  }

  lemma StoreBelowEnd(w: World)
    requires Inv(w)
    ensures NonEmpty(w.hist) && 0 <= w.storeNext <= DurableEnd(w.hist)
  {
    hide LogOk, Coherent, Serializable;
    if w.hist != [] { BelowDurableEnd(w.hist, 0); }
  }
}
