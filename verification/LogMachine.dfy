/** Every run of one partition on one broker: produce, flush, upload failures, store
    failures, crashes, reopens and reads (cmd/broker/main.go over pkg/storage/log.go). */
module LogMachine {
  import opened Bytes
  import opened Wrappers
  import opened RecordBatches
  import opened WriteBuffers
  import opened Segments
  import opened ObjectStore
  import opened PartitionLogs
  import LRU = SegmentCache

  // ---------------------------------------------------------------- the machine

  /** History: one stored segment object, whether its index object was stored too, and
      whether the open log lists it. */
  datatype Stored = Stored(batches: seq<RecordBatch>, stamp: Stamp, indexed: bool, live: bool)

  /** `hist` and `acked` are history variables; the rest is the system. `acked` holds the
      batches answered with error 0 by a synchronous produce, as they were numbered. */
  datatype World = World(cfg: Config, storeNext: int, objs: Objects, cache: LRU.Lru, log: Option<Log>,
                         hist: seq<Stored>, acked: seq<RecordBatch>)

  datatype Action =
    | Produce(records: bytes, sync: bool, append: FlushIo, flush: FlushIo, write1: Write, write2: Write)
    | Open(readable: bool, reachable: bool, listing: seq<int>, now: int, write: Write)
    | Crash
    | Fetch(offset: int, maxBytes: int, available: bool)
    | Prefetch(base: int)
    | OtherCacheUse(key: string, data: Option<bytes>)

  function UpdateOffsets(storeNext: int, lastOffset: Option<int>, w: Write): int {
    if lastOffset.Some? && w.Applied() then lastOffset.value + 1 else storeNext
  }

  /** The history entry a flush of `batches` leaves behind, if it stored the segment object. */
  function Trace(batches: seq<RecordBatch>, io: FlushIo): seq<Stored> {
    if batches == [] then []
    else
      match io.upload
      case Uploaded => [Stored(batches, io.stamp, true, true)]
      case SegmentFailed(stored) => if stored then [Stored(batches, io.stamp, false, false)] else []
      case IndexFailed(stored) => [Stored(batches, io.stamp, stored, false)]
  }

  /** AppendBatch with its callback. */
  function DoAppend(w: World, log: Log, batch: RecordBatch, io: FlushIo, write: Write): World
    requires |batch.data| >= 8
  {
    var o := AppendBatch(w.cfg, log, w.objs, w.cache, batch, io);
    var due := ShouldFlush(w.cfg.buffer, Numbered(log, batch).buffer, io.now);
    w.(log := Some(o.log), objs := o.objs, cache := o.cache,
       storeNext := UpdateOffsets(w.storeNext, o.notify, write),
       hist := w.hist + (if due then Trace(Numbered(log, batch).buffer.batches, io) else []))
  }

  /** Flush with its callback. */
  function DoFlush(w: World, log: Log, io: FlushIo, write: Write): World {
    var o := Flush(w.cfg, log, w.objs, w.cache, io);
    w.(log := Some(o.log), objs := o.objs, cache := o.cache,
       storeNext := UpdateOffsets(w.storeNext, o.notify, write),
       hist := w.hist + Trace(log.buffer.batches, io))
  }

  /** handleProduce for one partition whose log is open. */
  function DoProduce(w: World, log: Log, a: Action): World
    requires a.Produce?
  {
    match NewRecordBatchFromBytes(a.records)
    case Err(_) => w
    case Ok(batch) =>
      var w1 := DoAppend(w, log, batch, a.append, a.write1);
      if AppendBatch(w.cfg, log, w.objs, w.cache, batch, a.append).result.Err? then w1
      else if !a.sync then w1
      else
        var w2 := DoFlush(w1, w1.log.value, a.flush, a.write2);
        if Flush(w.cfg, w1.log.value, w1.objs, w1.cache, a.flush).result.Err? then w2
        else w2.(acked := w2.acked + [Patched(batch, log.nextOffset)])
  }

  function AllLive(hist: seq<Stored>): (r: seq<Stored>)
    ensures |r| == |hist| && forall i :: 0 <= i < |r| ==> r[i] == hist[i].(live := true)
  {
    seq(|hist|, i requires 0 <= i < |hist| => hist[i].(live := true))
  }

  /** A listing names every segment object once, in any order. */
  ghost predicate Lists(listing: seq<int>, objs: Objects) {
    && (forall b :: b in listing <==> b in objs.data)
    && (forall i, j :: 0 <= i < j < |listing| ==> listing[i] != listing[j])
  }

  /** getPartitionLog when the log is not in memory. */
  function DoOpen(w: World, a: Action): World
    requires a.Open? && Lists(a.listing, w.objs)
  {
    if !a.readable || !a.reachable then w
    else
      match Restored(NewLog(w.storeNext, a.now), w.objs, a.listing)
      case Err(_) => w
      case Ok((log, last)) =>
        w.(log := Some(log), hist := AllLive(w.hist),
           storeNext := if last >= w.storeNext then UpdateOffsets(w.storeNext, Some(last), a.write) else w.storeNext)
  }

  /** What the source's types and the assumptions of the model ask of a step: a produced batch
      has a non-negative offset delta, offsets fit 64 bits and segments 31 bits. */
  ghost predicate Legal(w: World, a: Action) {
    match a
    case Produce(records, _, _, _, _, _) =>
      w.log.Some? && NewRecordBatchFromBytes(records).Ok? ==>
        var delta := NewRecordBatchFromBytes(records).value.lastOffsetDelta;
        && 0 <= delta
        && w.log.value.nextOffset + delta + 1 < TWO63
        && HEADER_LEN + |Concat(w.log.value.buffer.batches)| + |records| + FOOTER_LEN < TWO31
    case Open(_, _, listing, _, _) => Lists(listing, w.objs)
    case OtherCacheUse(key, _) => forall base :: w.cfg.CacheKey(base) != key
    case _ => true
  }

  function Step(w: World, a: Action): World
    requires Legal(w, a)
  {
    match a
    case Produce(_, _, _, _, _, _) => if w.log.Some? then DoProduce(w, w.log.value, a) else w
    case Open(_, _, _, _, _) => if w.log.None? then DoOpen(w, a) else w
    case Crash => w.(log := None, cache := [])
    case Fetch(offset, maxBytes, available) =>
      if w.log.None? then w
      else w.(cache := Read(w.cfg, w.log.value, w.objs, w.cache, offset, maxBytes, available).0)
    case Prefetch(base) =>
      if base in w.objs.data
      then w.(cache := LRU.Put(w.cache, w.cfg.cacheCapacity, w.cfg.CacheKey(base), w.objs.data[base]))
      else w
    case OtherCacheUse(key, data) =>
      w.(cache := if data.Some? then LRU.Put(w.cache, w.cfg.cacheCapacity, key, data.value) else LRU.Got(w.cache, key))
  }

  function Init(cfg: Config): World {
    World(cfg, 0, Objects(map[], map[]), [], None, [], [])
  }

  /** `states` is a run: it starts at Init and every step is a legal one. */
  ghost predicate IsRun(cfg: Config, actions: seq<Action>, states: seq<World>) {
    && |states| == |actions| + 1 && states[0] == Init(cfg)
    && forall i :: 0 <= i < |actions| ==> Legal(states[i], actions[i]) && states[i + 1] == Step(states[i], actions[i])
  }
}
