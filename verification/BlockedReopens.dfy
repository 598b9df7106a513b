/** Which failed uploads leave a segment object without an index object, and a run that ends in one
    (pkg/storage/log.go). */
module BlockedReopens {
  import opened Bytes
  import opened Wrappers
  import opened RecordBatches
  import opened WriteBuffers
  import opened Segments
  import opened ObjectStore
  import opened PartitionLogs
  import opened LogMachine
  import opened BrokerFetch
  import opened OffsetDeltas
  import LRU = SegmentCache

  /** A flush under a base offset that is new to the store leaves the segment object there without an
      index object if and only if the index upload fails before it stores, or the segment upload fails
      after it stored. */
  lemma IndexlessExactlyWhen(cfg: Config, log: Log, objs: Objects, cache: LRU.Lru, io: FlushIo)
    requires log.buffer.batches != [] && forall i :: 0 <= i < |log.buffer.batches| ==> log.buffer.batches[i].data != []
    requires log.buffer.batches[0].baseOffset !in objs.data && log.buffer.batches[0].baseOffset !in objs.index
    ensures var base := log.buffer.batches[0].baseOffset;
            var o := FlushLocked(cfg, log, objs, cache, io).objs;
            base in o.data && base !in o.index <==> io.upload == IndexFailed(false) || io.upload == SegmentFailed(true)
  {
    hide SegmentBytes, TotalMessages, LRU.Put, LRU.MakeKey;
  }

  /** A synchronous produce to an empty partition whose index upload fails. */
  lemma FailsIndexless(cfg: Config, now: int, io: FlushIo)
    requires io.upload == IndexFailed(false)
    ensures var w := Init(cfg).(log := Some(NewLog(0, now)));
            var a := Request(ZERO, io);
            && Legal(w, a)
            && Step(w, a).objs.data.Keys == {0} && Step(w, a).objs.index == map[]
  {
    hide ShouldFlush, SegmentBytes, TotalMessages, LRU.Put, LRU.MakeKey, DecodeBE, PutUint64;
    FourBytes(ZERO[23..27]);
    var log := NewLog(0, now);
    var batch := NewRecordBatchFromBytes(ZERO).value;
    var log1 := Numbered(log, batch);
    assert log1.buffer.batches == [Patched(batch, 0)];
    EmptyConcat();
  }

  lemma EmptyConcat()
    ensures Concat([]) == []
  {
  }

  /** A partition that cannot be opened again. The broker opens it, a produce fails in its index
      upload, and the broker crashes: from then on every reopen is refused. */
  lemma ReopenRefused(cfg: Config, now: int, io: FlushIo) returns (actions: seq<Action>, states: seq<World>)
    requires io.upload == IndexFailed(false)
    ensures IsRun(cfg, actions, states) && |actions| == 3
    ensures 0 in states[3].objs.data && 0 !in states[3].objs.index
    ensures forall listing, later :: Lists(listing, states[3].objs) ==>
              Restored(NewLog(states[3].storeNext, later), states[3].objs, listing).Err?
  {
    hide Step, Legal, Restored;
    var a0, a1 := Open(true, true, [], now, Done), Request(ZERO, io);
    Opened(cfg, now);
    FailsIndexless(cfg, now, io);
    var w0 := Init(cfg);
    var w1 := Step(w0, a0);
    var w2 := Step(w1, a1);
    CrashKeepsObjects(w2);
    var w3 := Step(w2, Crash);
    actions, states := [a0, a1, Crash], [w0, w1, w2, w3];
    assert IsRun(cfg, actions, states);
    forall listing, later | Lists(listing, states[3].objs)
      ensures Restored(NewLog(states[3].storeNext, later), states[3].objs, listing).Err?
    {
      BlocksReopens(cfg, actions, states, 3, 3, 0, listing, later);
    }
  }

  lemma CrashKeepsObjects(w: World)
    ensures Legal(w, Crash) && Step(w, Crash).objs == w.objs
  {
  }
}
