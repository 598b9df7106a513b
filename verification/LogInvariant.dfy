/** What every step of the partition machine keeps. */
module LogInvariant {
  import opened Bytes
  import opened Wrappers
  import opened RecordBatches
  import opened WriteBuffers
  import opened SparseIndex
  import opened Segments
  import opened ObjectStore
  import opened ReadPath
  import opened PartitionLogs
  import opened LogMachine
  import LRU = SegmentCache

  // ------------------------------------------------------------- the invariant

  function Base(s: Stored): int
    requires s.batches != []
  {
    s.batches[0].baseOffset
  }

  function Last(s: Stored): int
    requires s.batches != []
  {
    s.batches[|s.batches| - 1].LastOffset()
  }

  ghost predicate Serializable(batches: seq<RecordBatch>) {
    && Contiguous(batches)
    && (forall i :: 0 <= i < |batches| ==> batches[i].data != [])
    && HEADER_LEN + |Concat(batches)| + FOOTER_LEN < TWO31
  }

  ghost predicate StoredOk(s: Stored) {
    && s.batches != [] && Serializable(s.batches)
    && 0 <= Base(s) && Last(s) + 1 < TWO63
  }

  ghost predicate HistOk(hist: seq<Stored>) {
    && (forall i :: 0 <= i < |hist| ==> StoredOk(hist[i]))
    && (forall i, j :: 0 <= i < j < |hist| ==> Last(hist[i]) < Base(hist[j]))
  }

  /** The objects of one history entry are stored as written. */
  ghost predicate Holds(cfg: Config, objs: Objects, s: Stored)
    requires s.batches != []
  {
    && Base(s) in objs.data && objs.data[Base(s)] == SegmentBytes(s.batches, s.stamp)
    && (Base(s) in objs.index <==> s.indexed)
    && (s.indexed ==> objs.index[Base(s)] == IndexBytes(IndexOf(cfg.interval, s.batches)))
  }

  ghost predicate HasBase(hist: seq<Stored>, b: int) {
    exists i :: 0 <= i < |hist| && hist[i].batches != [] && Base(hist[i]) == b
  }

  ghost predicate ObjsOk(cfg: Config, objs: Objects, hist: seq<Stored>) {
    && HistOk(hist)
    && (forall i :: 0 <= i < |hist| ==> Holds(cfg, objs, hist[i]))
    && (forall b :: b in objs.data ==> HasBase(hist, b))
    && (forall b :: b in objs.index ==> b in objs.data)
  }

  function RangeOf(s: Stored): SegmentRange
    requires s.batches != []
  {
    SegmentRange(Base(s), Last(s), HEADER_LEN + |Concat(s.batches)| + FOOTER_LEN)
  }

  ghost predicate NonEmpty(hist: seq<Stored>) {
    forall i :: 0 <= i < |hist| ==> hist[i].batches != []
  }

  /** The segment list of a log that lists the live entries. */
  ghost function LiveRanges(hist: seq<Stored>): seq<SegmentRange>
    requires NonEmpty(hist)
  {
    if hist == [] then []
    else
      var s := hist[|hist| - 1];
      LiveRanges(hist[..|hist| - 1]) + (if s.live then [RangeOf(s)] else [])
  }

  ghost function LiveIndex(cfg: Config, hist: seq<Stored>): map<int, seq<IndexEntry>>
    requires NonEmpty(hist)
  {
    if hist == [] then map[]
    else
      var s := hist[|hist| - 1];
      var front := LiveIndex(cfg, hist[..|hist| - 1]);
      if s.live then front[Base(s) := IndexOf(cfg.interval, s.batches).entries] else front
  }

  /** First offset the log still owes to the object store. */
  function FirstFree(log: Log): int {
    if log.buffer.batches == [] then log.nextOffset else log.buffer.batches[0].baseOffset
  }

  ghost predicate BufferOk(log: Log) {
    && Serializable(log.buffer.batches)
    && Counted(log.buffer)
    && (log.buffer.batches != [] ==>
          log.buffer.batches[|log.buffer.batches| - 1].LastOffset() + 1 == log.nextOffset)
    && 0 <= FirstFree(log) <= log.nextOffset < TWO63
  }

  ghost predicate LogOk(cfg: Config, log: Log, hist: seq<Stored>) {
    && HistOk(hist)
    && BufferOk(log)
    && (forall i :: 0 <= i < |hist| ==> Last(hist[i]) < FirstFree(log))
    && (forall i :: 0 <= i < |hist| && hist[i].live ==> hist[i].indexed)
    && log.segments == LiveRanges(hist)
    && log.index == LiveIndex(cfg, hist)
  }

  /** The stored next offset never runs ahead of the durable end. */
  ghost predicate StoreOk(storeNext: int, hist: seq<Stored>)
    requires NonEmpty(hist)
  {
    0 <= storeNext && (storeNext > 0 ==> hist != [] && storeNext <= Last(hist[|hist| - 1]) + 1)
  }

  /** Batch `b` is durable: it sits in a stored and indexed segment, which the log lists if it is open. */
  ghost predicate Durable(b: RecordBatch, isOpen: bool, hist: seq<Stored>) {
    exists i :: 0 <= i < |hist| && b in hist[i].batches && hist[i].indexed && (isOpen ==> hist[i].live)
  }

  ghost predicate Inv(w: World) {
    && ObjsOk(w.cfg, w.objs, w.hist)
    && StoreOk(w.storeNext, w.hist)
    && Coherent(w.cfg, w.cache, w.objs)
    && (w.log.Some? ==> LogOk(w.cfg, w.log.value, w.hist))
    && (forall b :: b in w.acked ==> Durable(b, w.log.Some?, w.hist))
  }

  // -------------------------------------------------------------- storing objects

  lemma HistExtends(hist: seq<Stored>, s: Stored)
    requires HistOk(hist) && StoredOk(s)
    requires forall i :: 0 <= i < |hist| ==> Last(hist[i]) < Base(s)
    ensures HistOk(hist + [s])
  {
  }

  lemma FirstNotLast(s: Stored)
    requires StoredOk(s)
    ensures Base(s) <= Last(s)
  {
    ContiguousOrder(s.batches, 0, |s.batches| - 1);
  }

  /** Writing the objects of a segment past everything stored. */
  lemma ObjsExtend(cfg: Config, objs: Objects, hist: seq<Stored>, s: Stored, objs': Objects)
    requires ObjsOk(cfg, objs, hist) && StoredOk(s)
    requires forall i :: 0 <= i < |hist| ==> Last(hist[i]) < Base(s)
    requires objs'.data == objs.data[Base(s) := SegmentBytes(s.batches, s.stamp)]
    requires objs'.index == if s.indexed then objs.index[Base(s) := IndexBytes(IndexOf(cfg.interval, s.batches))]
             else objs.index
    ensures ObjsOk(cfg, objs', hist + [s])
    ensures Base(s) !in objs.data
  {
    hide SegmentBytes, IndexBytes, IndexOf, Serializable;
    HistExtends(hist, s);
    var hist' := hist + [s];
    forall i | 0 <= i < |hist| ensures Base(hist[i]) < Base(s) {
      FirstNotLast(hist[i]);
    }
    hide HistOk, StoredOk;
    forall i | 0 <= i < |hist'| ensures Holds(cfg, objs', hist'[i]) {
      if i < |hist| { assert Holds(cfg, objs, hist[i]); }
    }
    forall b | b in objs'.data ensures HasBase(hist', b) {
      if b == Base(s) {
        assert Base(hist'[|hist|]) == b;
      } else {
        assert HasBase(hist, b);
        var i :| 0 <= i < |hist| && hist[i].batches != [] && Base(hist[i]) == b;
        assert Base(hist'[i]) == b;
      }
    }
  }

  lemma CoherentExtends(cfg: Config, cache: LRU.Lru, objs: Objects, objs': Objects, b: int)
    requires Coherent(cfg, cache, objs) && b !in objs.data && b in objs'.data
    requires forall x :: x in objs.data ==> x in objs'.data && objs'.data[x] == objs.data[x]
    ensures Coherent(cfg, cache, objs')
    ensures Coherent(cfg, LRU.Put(cache, cfg.cacheCapacity, cfg.CacheKey(b), objs'.data[b]), objs')
  {
    forall base | cfg.CacheKey(base) == cfg.CacheKey(b) ensures base == b {
      LRU.MakeKeyInjective(cfg.topicKey, cfg.partition, base, cfg.topicKey, cfg.partition, b);
    }
    CoherentPut(cfg, cache, objs', cfg.CacheKey(b), objs'.data[b]);
  }

  // ---------------------------------------------------------------------- flushing

  /** The buffer as the history entry it would become. */
  lemma BufferStored(log: Log, stamp: Stamp, indexed: bool, live: bool)
    requires BufferOk(log) && log.buffer.batches != []
    ensures var s := Stored(log.buffer.batches, stamp, indexed, live);
            StoredOk(s) && Base(s) == FirstFree(log) && Last(s) == log.nextOffset - 1
    ensures Built(0, log.buffer.batches, stamp).Ok?
  {
  }

  lemma LiveExtends(cfg: Config, hist: seq<Stored>, s: Stored)
    requires NonEmpty(hist) && s.batches != []
    ensures NonEmpty(hist + [s])
    ensures LiveRanges(hist + [s]) == LiveRanges(hist) + (if s.live then [RangeOf(s)] else [])
    ensures LiveIndex(cfg, hist + [s])
         == if s.live then LiveIndex(cfg, hist)[Base(s) := IndexOf(cfg.interval, s.batches).entries]
             else LiveIndex(cfg, hist)
  {
    assert (hist + [s])[..|hist|] == hist;
  }

  lemma SerializableNothing()
    ensures Serializable([])
  {
    assert Concat([]) == [];
  }

  /** The log after its buffer was drained, and stored as `s` or not at all. */
  lemma LogDrained(cfg: Config, log: Log, hist: seq<Stored>, now: int, s: Stored)
    requires LogOk(cfg, log, hist)
    ensures LogOk(cfg, log.(buffer := Drained(log.buffer, now)), hist)
    ensures StoredOk(s) && Base(s) == FirstFree(log) && Last(s) == log.nextOffset - 1 && (s.live ==> s.indexed)
            && HistOk(hist + [s]) ==>
              LogOk(cfg, log.(buffer := Drained(log.buffer, now),
                              segments := log.segments + (if s.live then [RangeOf(s)] else []),
                              index := if s.live then log.index[Base(s) := IndexOf(cfg.interval, s.batches).entries]
                                  else log.index),
                    hist + [s])
  {
    hide LiveRanges, LiveIndex, IndexOf, HistOk, Serializable;
    assert Serializable([]) by { SerializableNothing(); }
    HistNonEmpty(hist);
    if s.batches != [] { LiveExtends(cfg, hist, s); }
  }

  lemma HistNonEmpty(hist: seq<Stored>)
    requires HistOk(hist)
    ensures NonEmpty(hist)
  {
  }

  /** What flushLocked leaves behind, in terms of the history entry it adds. */
  lemma FlushShape(cfg: Config, log: Log, objs: Objects, cache: LRU.Lru, io: FlushIo, s: Stored)
    requires BufferOk(log) && Trace(log.buffer.batches, io) == [s]
    ensures var o := FlushLocked(cfg, log, objs, cache, io);
            && s.batches == log.buffer.batches != [] && (s.live ==> s.indexed) && (s.live <==> io.upload.Uploaded?)
            && o.objs.data == objs.data[Base(s) := SegmentBytes(s.batches, s.stamp)]
            && o.objs.index == (if s.indexed then objs.index[Base(s) := IndexBytes(IndexOf(cfg.interval, s.batches))]
                                else objs.index)
            && o.log == log.(buffer := Drained(log.buffer, io.now),
                             segments := log.segments + (if s.live then [RangeOf(s)] else []),
                             index := if s.live then log.index[Base(s) := IndexOf(cfg.interval, s.batches).entries]
                                 else log.index)
            && (o.cache == cache
                || o.cache == LRU.Put(cache, cfg.cacheCapacity, cfg.CacheKey(Base(s)),
                                      SegmentBytes(s.batches, s.stamp)))
            && (o.result.Ok? <==> s.live)
            && (o.result.Ok? ==> o.result.value.Some? && o.result.value.value.lastOffset == Last(s))
  {
    hide Concat, IndexBytes, IndexOf, LRU.Put, LRU.MakeKey, TotalMessages, Header, Footer;
    BufferStored(log, io.stamp, s.indexed, s.live);
  }

  /** flushLocked, whatever the uploads do: history and objects stay in step, the buffer is
      empty afterwards, and it succeeds exactly when both uploads do. */
  lemma FlushKeeps(cfg: Config, log: Log, objs: Objects, cache: LRU.Lru, hist: seq<Stored>, io: FlushIo)
    requires ObjsOk(cfg, objs, hist) && Coherent(cfg, cache, objs) && LogOk(cfg, log, hist)
    ensures var o := FlushLocked(cfg, log, objs, cache, io);
            var hist' := hist + Trace(log.buffer.batches, io);
            && ObjsOk(cfg, o.objs, hist') && Coherent(cfg, o.cache, o.objs) && LogOk(cfg, o.log, hist')
            && o.log.buffer.batches == [] && o.log.nextOffset == log.nextOffset
            && (log.buffer.batches == [] ==> o.result == Ok(None))
            && (log.buffer.batches != [] ==>
                  && (o.result.Ok? <==> io.upload.Uploaded?)
                  && (o.result.Ok? ==> o.result.value.Some? && o.result.value.value.lastOffset == log.nextOffset - 1))
  {
    if log.buffer.batches == [] || io.upload == SegmentFailed(false) {
      FlushNothing(cfg, log, objs, cache, hist, io);
    } else {
      var s := Trace(log.buffer.batches, io)[0];
      FlushSomething(cfg, log, objs, cache, hist, io, s);
    }
  }

  lemma FlushNothing(cfg: Config, log: Log, objs: Objects, cache: LRU.Lru, hist: seq<Stored>, io: FlushIo)
    requires LogOk(cfg, log, hist)
    requires log.buffer.batches == [] || io.upload == SegmentFailed(false)
    ensures var o := FlushLocked(cfg, log, objs, cache, io);
            && Trace(log.buffer.batches, io) == [] && hist + [] == hist
            && o.objs == objs && o.cache == cache && LogOk(cfg, o.log, hist)
            && o.log == log.(buffer := Drained(log.buffer, io.now))
            && o.result == if log.buffer.batches == [] then Ok(None) else Err(Unavailable)
  {
    LogDrained(cfg, log, hist, io.now, Stored([], io.stamp, false, false));
    if log.buffer.batches != [] { BufferStored(log, io.stamp, false, false); }
  }

  lemma FlushSomething(cfg: Config, log: Log, objs: Objects, cache: LRU.Lru, hist: seq<Stored>, io: FlushIo, s: Stored)
    requires ObjsOk(cfg, objs, hist) && Coherent(cfg, cache, objs) && LogOk(cfg, log, hist)
    requires Trace(log.buffer.batches, io) == [s]
    ensures var o := FlushLocked(cfg, log, objs, cache, io);
            && ObjsOk(cfg, o.objs, hist + [s]) && Coherent(cfg, o.cache, o.objs) && LogOk(cfg, o.log, hist + [s])
            && o.log.buffer.batches == [] && o.log.nextOffset == log.nextOffset
            && (o.result.Ok? <==> io.upload.Uploaded?)
            && (o.result.Ok? ==> o.result.value.Some? && o.result.value.value.lastOffset == log.nextOffset - 1)
  {
    hide FlushLocked, SegmentBytes, IndexBytes, IndexOf, BufferOk, StoredOk, HistOk, ObjsOk, LiveRanges, LiveIndex,
         LRU.Put;
    FlushShape(cfg, log, objs, cache, io, s);
    BufferStored(log, io.stamp, s.indexed, s.live);
    HistExtends(hist, s);
    var o := FlushLocked(cfg, log, objs, cache, io);
    ObjsExtend(cfg, objs, hist, s, o.objs);
    LogDrained(cfg, log, hist, io.now, s);
    hide LogOk;
    CoherentExtends(cfg, cache, objs, o.objs, Base(s));
  }
}
