/** Fetching and reopening at the broker, over runs of the partition machine
    (cmd/broker/main.go). */
module BrokerFetch {
  import opened Bytes
  import opened Wrappers
  import opened RecordBatches
  import opened SparseIndex
  import opened Segments
  import opened ObjectStore
  import opened ReadPath
  import opened PartitionLogs
  import opened LogMachine
  import opened LogInvariant
  import opened LogRecovery
  import opened LogRuns
  import opened LogTheorems
  import LRU = SegmentCache

  datatype Code = NoError | OffsetOutOfRangeCode | UnknownTopicOrPartition | Backpressure

  /** What waiting for data returned: a next offset read from the store, possibly with a
      cancelled context, or an error. */
  datatype Watermark = Known(next: int) | Cancelled(next: int) | UnknownTopic | StoreFailed(etcdAvailable: bool)

  datatype Answer = Answer(code: Code, highWatermark: int, records: bytes)

  function EffectiveNext(wm: Watermark, fetchOffset: int): int {
    match wm
    case Known(n) => n
    case Cancelled(n) => n
    case UnknownTopic => 0
    case StoreFailed(etcdAvailable) => if etcdAvailable then 0 else fetchOffset
  }

  /** handleFetch for one partition whose log is open. */
  function FetchPartition(w: World, log: Log, fetchOffset: int, maxBytes: int, wm: Watermark, available: bool): Answer {
    if wm.UnknownTopic? then Answer(UnknownTopicOrPartition, 0, [])
    else
      var next := EffectiveNext(wm, fetchOffset);
      if fetchOffset > next then Answer(OffsetOutOfRangeCode, next, [])
      else if fetchOffset == next then Answer(NoError, next, [])
      else
        match Read(w.cfg, log, w.objs, w.cache, fetchOffset, maxBytes, available).1
        case Ok(records) => Answer(NoError, next, records)
        case Err(OffsetOutOfRange) => Answer(OffsetOutOfRangeCode, next, [])
        case Err(_) => Answer(Backpressure, next, [])
  }

  lemma {:induction false} TileHolder(log: Option<Log>, hist: seq<Stored>, offset: int) returns (j: nat)
    requires Tiles(log, hist) && 0 <= offset < DurableEnd(hist)
    ensures j < |hist| && Base(hist[j]) <= offset <= Last(hist[j])
  {
    j := 0;
    while Last(hist[j]) < offset
      invariant j < |hist| && Base(hist[j]) <= offset
      decreases |hist| - j
    {
      j := j + 1;
    }
  }

  /** A copy of the segment object at `base` is in the cache. */
  ghost predicate Cached(w: World, base: int) {
    w.cfg.cacheEnabled && exists data :: LRU.Entry(w.cfg.CacheKey(base), data) in w.cache
  }

  /** Listed segment `k` covers the offset. */
  ghost predicate CoversAt(w: World, k: int, offset: int) {
    && 0 <= k < |w.hist| && w.hist[k].live && w.hist[k].batches != []
    && Base(w.hist[k]) <= offset <= Last(w.hist[k])
  }

  ghost predicate CachedAt(w: World, offset: int) {
    exists k :: CoversAt(w, k, offset) && Cached(w, Base(w.hist[k]))
  }

  /** The records are the whole batches of listed segment `k` from the `n`th on, which begins at or below
      the offset, cut only by a positive limit. */
  ghost predicate ReturnsFrom(w: World, k: nat, n: nat, offset: int, maxBytes: int, records: bytes) {
    && CoversAt(w, k, offset) && n < |w.hist[k].batches| && w.hist[k].batches[n].baseOffset <= offset
    && var all := Concat(w.hist[k].batches[n..]);
       records <= all && |records| == if 0 < maxBytes < |all| then maxBytes else |all|
  }

  /** The listed segment's batch that holds the offset is among the records, whole. */
  ghost predicate ReturnsHolder(w: World, k: nat, offset: int, records: bytes)
    requires k < |w.hist|
  {
    forall b :: b in w.hist[k].batches && b.baseOffset <= offset <= b.LastOffset() ==>
      Carries(records, w.hist[k].batches, b)
  }

  /** What a fetch is answered in any state of a run without failed uploads. Every answer but that
      for an unknown topic reports the next offset the fetch works with. It is out of range exactly when
      the fetch offset lies beyond that, or is negative and below it; it is empty at it. Below it the
      answer is backpressure exactly when the segment has to be downloaded and that fails, and records
      otherwise. The next offset is the stored one, or 0 after a store error that is not an outage. */
  lemma FetchAnswers(cfg: Config, actions: seq<Action>, states: seq<World>, i: nat,
                     fetchOffset: int, maxBytes: int, wm: Watermark, available: bool)
    requires IsRun(cfg, actions, states) && i < |states| && states[i].log.Some?
    requires forall j :: 0 <= j < i ==> Clean(actions[j])
    requires (wm.Known? || wm.Cancelled?) ==> 0 <= wm.next <= states[i].storeNext
    ensures var w := states[i];
            var a := FetchPartition(w, w.log.value, fetchOffset, maxBytes, wm, available);
            var next := EffectiveNext(wm, fetchOffset);
            if wm.UnknownTopic? then a == Answer(UnknownTopicOrPartition, 0, [])
            else
              && a.highWatermark == next
              && (a.code == OffsetOutOfRangeCode <==> next < fetchOffset || (fetchOffset < next && fetchOffset < 0))
              && (a.code == Backpressure <==> 0 <= fetchOffset < next && !available && !CachedAt(w, fetchOffset))
              && (a.code == NoError || a.code == Backpressure || a.code == OffsetOutOfRangeCode)
              && (a.code == NoError && fetchOffset < next <==> a.records != [])
  {
    hide Inv, Tiles, Read, Clean, DurableEnd, CachedAt;
    CleanRunTiles(cfg, actions, states, i);
    RunKeeps(cfg, actions, states, i);
    var w := states[i];
    hide IsRun;
    var next := EffectiveNext(wm, fetchOffset);
    if 0 <= fetchOffset < next {
      CoveredReads(w, fetchOffset, maxBytes, available);
    } else if fetchOffset < 0 {
      NothingBelowZero(w, fetchOffset, maxBytes, available);
    }
  }

  /** What a fetch below the next offset returns, in every state of every run: whole batches of the
      segment that covers its offset, from one at or below the offset, cut only by the byte limit;
      without a limit, the batch that holds the offset is among them. */
  lemma FetchReturns(cfg: Config, actions: seq<Action>, states: seq<World>, i: nat,
                     fetchOffset: int, maxBytes: int, wm: Watermark, available: bool) returns (k: nat, n: nat)
    requires IsRun(cfg, actions, states) && i < |states| && states[i].log.Some?
    requires fetchOffset < EffectiveNext(wm, fetchOffset)
    requires FetchPartition(states[i], states[i].log.value, fetchOffset, maxBytes, wm, available).code == NoError
    ensures var w := states[i];
            var a := FetchPartition(w, w.log.value, fetchOffset, maxBytes, wm, available);
            && a.highWatermark == EffectiveNext(wm, fetchOffset)
            && ReturnsFrom(w, k, n, fetchOffset, maxBytes, a.records)
            && (maxBytes <= 0 ==> ReturnsHolder(w, k, fetchOffset, a.records))
  {
    hide Inv, Read, IsRun, ReturnsFrom, ReturnsHolder;
    RunKeeps(cfg, actions, states, i);
    ReadsWithout(states[i], fetchOffset, maxBytes, available);
    k, n := ReadReturns(states[i], fetchOffset, maxBytes);
  }

  lemma ReadReturns(w: World, offset: int, maxBytes: int) returns (k: nat, n: nat)
    requires Inv(w) && w.log.Some?
    ensures var r := Read(w.cfg, w.log.value, w.objs, w.cache, offset, maxBytes, true).1;
            r.Ok? ==> ReturnsFrom(w, k, n, offset, maxBytes, r.value)
                      && (maxBytes <= 0 ==> ReturnsHolder(w, k, offset, r.value))
  {
    hide Inv, Read, Concat, Carries;
    k, n := ReadsBatches(w, offset, maxBytes);
    var r := Read(w.cfg, w.log.value, w.objs, w.cache, offset, maxBytes, true).1;
    if r.Ok? && maxBytes <= 0 {
      InvStored(w, k);
      forall b | b in w.hist[k].batches && b.baseOffset <= offset <= b.LastOffset()
        ensures Carries(r.value, w.hist[k].batches, b)
      {
        var m :| 0 <= m < |w.hist[k].batches| && w.hist[k].batches[m] == b;
        HolderCarried(w.hist[k], n, m, offset);
      }
    }
  }

  lemma InvStored(w: World, k: nat)
    requires Inv(w) && k < |w.hist|
    ensures StoredOk(w.hist[k])
  {
    hide LogOk, Coherent, StoreOk, Holds, HasBase, Serializable;
  }

  lemma HolderCarried(s: Stored, n: nat, m: nat, offset: int)
    requires StoredOk(s) && n < |s.batches| && m < |s.batches| && s.batches[n].baseOffset <= offset
    requires s.batches[m].baseOffset <= offset <= s.batches[m].LastOffset()
    ensures Carries(Concat(s.batches[n..]), s.batches, s.batches[m])
  {
    hide Concat;
    if m < n { ContiguousOrder(s.batches, m + 1, n); }
    SplitTail(s.batches, n, m);
    assert CarriesAt(Concat(s.batches[n..]), s.batches, n, m);
  }

  lemma NothingBelowZero(w: World, offset: int, maxBytes: int, available: bool)
    requires Inv(w) && w.log.Some? && offset < 0
    ensures Read(w.cfg, w.log.value, w.objs, w.cache, offset, maxBytes, available).1 == Err(OffsetOutOfRange)
  {
    hide LiveRanges, LiveIndex, Serializable, BufferOk, ObjsOk, Coherent, Durable, FindSegment;
    NotListed(w, offset);
  }

  /** So whenever the store answers, a fetch at any offset from 0 up to the stored next offset is not
      out of range; after a store error that is not an outage, every offset but 0 is. */
  lemma FetchBelowWatermark(cfg: Config, actions: seq<Action>, states: seq<World>, i: nat,
                            fetchOffset: int, maxBytes: int, available: bool)
    requires IsRun(cfg, actions, states) && i < |states| && states[i].log.Some?
    requires forall j :: 0 <= j < i ==> Clean(actions[j])
    requires 0 <= fetchOffset <= states[i].storeNext
    ensures var w := states[i];
            var code := (wm: Watermark) => FetchPartition(w, w.log.value, fetchOffset, maxBytes, wm, available).code;
            && code(Known(states[i].storeNext)) != OffsetOutOfRangeCode
            && code(StoreFailed(false)) != OffsetOutOfRangeCode
            && (code(StoreFailed(true)) == OffsetOutOfRangeCode <==> fetchOffset > 0)
  {
    hide FetchPartition, Clean;
    CleanRunTiles(cfg, actions, states, i);
    FetchAnswers(cfg, actions, states, i, fetchOffset, maxBytes, Known(states[i].storeNext), available);
    FetchAnswers(cfg, actions, states, i, fetchOffset, maxBytes, StoreFailed(false), available);
    FetchAnswers(cfg, actions, states, i, fetchOffset, maxBytes, StoreFailed(true), available);
  }

  lemma CoveredReads(w: World, offset: int, maxBytes: int, available: bool)
    requires Inv(w) && w.log.Some? && Tiles(w.log, w.hist) && 0 <= offset < DurableEnd(w.hist)
    ensures var r := Read(w.cfg, w.log.value, w.objs, w.cache, offset, maxBytes, available).1;
            if !available && !CachedAt(w, offset) then r == Err(Unavailable) else r.Ok? && r.value != []
  {
    hide Inv, Read, Concat, CachedAt;
    var j := TileHolder(w.log, w.hist, offset);
    var k, i := ReadsBatches(w, offset, maxBytes);
    ReadsWithout(w, offset, maxBytes, available);
    var r := Read(w.cfg, w.log.value, w.objs, w.cache, offset, maxBytes, true).1;
    assert w.hist[j].live;
    assert r.Ok?;
    StoredTail(w, k, i);
    DownloadsUnlessCached(w, j, offset, maxBytes);
  }

  /** A read of a covered offset needs a download exactly when no copy of the segment is cached. */
  lemma DownloadsUnlessCached(w: World, k: nat, offset: int, maxBytes: int)
    requires Inv(w) && w.log.Some? && CoversAt(w, k, offset)
    ensures Read(w.cfg, w.log.value, w.objs, w.cache, offset, maxBytes, false).1 == Err(Unavailable)
       <==> !CachedAt(w, offset)
  {
    hide Inv, Cached, LRU.MakeKey, LRU.Find, SliceCached, FindSegment, Concat, Coherent, Sized;
    InvBasics(w);
    FoundSegment(w, k, offset);
    CachedMeans(w, Base(w.hist[k]));
    var i := PlainReadAt(w, k, offset, maxBytes);
    LogSized(w);
    ReadPathIndependent(w.cfg, w.log.value, w.objs, w.cache, offset, maxBytes);
    forall j | CoversAt(w, j, offset) ensures j == k { OnlyCover(w, j, k, offset); }
  }

  lemma FoundSegment(w: World, k: nat, offset: int)
    requires Inv(w) && w.log.Some? && CoversAt(w, k, offset)
    ensures FindSegment(w.log.value.segments, offset).Some?
    ensures FindSegment(w.log.value.segments, offset).value.baseOffset == Base(w.hist[k])
  {
    hide ObjsOk, Coherent, StoreOk, LogOk, FindSegment;
    LiveLookup(w.cfg, w.log.value, w.hist, k, offset);
  }

  lemma OnlyCover(w: World, j: nat, k: nat, offset: int)
    requires Inv(w) && CoversAt(w, j, offset) && CoversAt(w, k, offset)
    ensures j == k
  {
    hide LogOk, Coherent, StoreOk, Holds, HasBase, Serializable;
    OneSegment(w.hist, j, k, offset);
  }

  lemma CachedMeans(w: World, base: int)
    ensures Cached(w, base) <==> w.cfg.cacheEnabled && LRU.Find(w.cache, w.cfg.CacheKey(base)).Some?
  {
    hide LRU.MakeKey, LRU.Find;
    var key := w.cfg.CacheKey(base);
    if data :| LRU.Entry(key, data) in w.cache {
      var i :| 0 <= i < |w.cache| && w.cache[i] == LRU.Entry(key, data);
      assert w.cache[i].key == key;
    }
  }

  lemma ReadsWithout(w: World, offset: int, maxBytes: int, available: bool)
    requires Inv(w) && w.log.Some?
    ensures var r := Read(w.cfg, w.log.value, w.objs, w.cache, offset, maxBytes, available).1;
            r == Read(w.cfg, w.log.value, w.objs, w.cache, offset, maxBytes, true).1
                || (!available && r == Err(Unavailable))
  {
    LogSized(w);
    ReadPathIndependent(w.cfg, w.log.value, w.objs, w.cache, offset, maxBytes);
    hide Read, PlainRead, Inv;
  }

  lemma StoredTail(w: World, k: nat, i: nat)
    requires Inv(w) && k < |w.hist| && i < |w.hist[k].batches|
    ensures Concat(w.hist[k].batches[i..]) != []
  {
    hide LogOk, Coherent, StoreOk, Holds, Concat;
    TailNonEmpty(w.hist[k].batches, i);
  }

  /** A fetch whose wait is cancelled is meant to come back empty. With the next offset that the
      store had given by then, 0 if it had not answered at all, it does so exactly at that offset;
      beyond it the answer is out of range. (A fetch below the next offset does not wait.) */
  lemma CancelledFetch(w: World, log: Log, fetchOffset: int, maxBytes: int, next: int, available: bool)
    requires fetchOffset >= next
    ensures var a := FetchPartition(w, log, fetchOffset, maxBytes, Cancelled(next), available);
            && (a == Answer(NoError, next, []) <==> fetchOffset == next)
            && (a == Answer(OffsetOutOfRangeCode, next, []) <==> fetchOffset > next)
  {
  }

  // ------------------------------------------------------------------- reopening

  /** Recovery refines the live log. In any state of a run without failed uploads, rebuilding from
      the objects in any listing order gives the live segment list and index map, drops only the
      buffer, and continues at the first offset that is not durable. */
  lemma RestoreRefinesLive(cfg: Config, actions: seq<Action>, states: seq<World>, i: nat, listing: seq<int>, now: int)
    requires IsRun(cfg, actions, states) && i < |states| && states[i].log.Some?
    requires forall j :: 0 <= j < i ==> Clean(actions[j])
    requires Lists(listing, states[i].objs)
    ensures var w := states[i];
            var r := Restored(NewLog(w.storeNext, now), w.objs, listing);
            && r.Ok?
            && r.value.0.segments == w.log.value.segments
            && r.value.0.index == w.log.value.index
            && r.value.0.buffer.batches == []
            && NonEmpty(w.hist) && r.value.0.nextOffset == FirstFree(w.log.value) == DurableEnd(w.hist)
  {
    CleanRunTiles(cfg, actions, states, i);
    RunKeeps(cfg, actions, states, i);
    hide IsRun, Restored;
    RestoreTiled(states[i], listing, now);
  }

  lemma RestoreTiled(w: World, listing: seq<int>, now: int)
    requires Inv(w) && w.log.Some? && Tiles(w.log, w.hist) && Lists(listing, w.objs)
    ensures var r := Restored(NewLog(w.storeNext, now), w.objs, listing);
            && r.Ok?
            && r.value.0.segments == w.log.value.segments
            && r.value.0.index == w.log.value.index
            && r.value.0.buffer.batches == []
            && r.value.0.nextOffset == FirstFree(w.log.value) == DurableEnd(w.hist)
  {
    hide ObjsOk, Coherent, Restored, HistOk, BufferOk, LiveRanges, LiveIndex;
    ObjsHist(w.cfg, w.objs, w.hist);
    RestoredExactly(w.cfg, w.objs, w.hist, listing, NewLog(w.storeNext, now));
    RecoveredLogOk(w.cfg, w.hist, w.storeNext, now);
    assert AllLive(w.hist) == w.hist;
  }

  /** In every run, with any failures, a reopen attempt succeeds exactly when every segment object
      has an index object. */
  lemma ReopensExactlyWhen(cfg: Config, actions: seq<Action>, states: seq<World>, i: nat, listing: seq<int>, now: int)
    requires IsRun(cfg, actions, states) && i < |states| && Lists(listing, states[i].objs)
    ensures Restored(NewLog(states[i].storeNext, now), states[i].objs, listing).Ok?
            <==> forall b :: b in states[i].objs.data ==> b in states[i].objs.index
  {
    RunKeeps(cfg, actions, states, i);
    var w := states[i];
    hide IsRun, Restored, LogOk, Coherent, StoreOk, SegmentBytes, IndexBytes, IndexOf, HistOk, Recovered;
    ObjsHist(w.cfg, w.objs, w.hist);
    RestoredExactly(w.cfg, w.objs, w.hist, listing, NewLog(w.storeNext, now));
    RefusedUnlessIndexed(w.cfg, w.hist, NewLog(w.storeNext, now));
    IndexedObjects(w.cfg, w.objs, w.hist);
  }

  lemma IndexedObjects(cfg: Config, objs: Objects, hist: seq<Stored>)
    requires ObjsOk(cfg, objs, hist)
    ensures AllIndexed(hist) <==> forall b :: b in objs.data ==> b in objs.index
  {
    hide SegmentBytes, IndexBytes, IndexOf, Serializable;
    if AllIndexed(hist) {
      forall b | b in objs.data ensures b in objs.index {
        assert HasBase(hist, b);
        var i :| 0 <= i < |hist| && hist[i].batches != [] && Base(hist[i]) == b;
        assert Holds(cfg, objs, hist[i]);
      }
    } else {
      var i :| 0 <= i < |hist| && !hist[i].indexed;
      assert Holds(cfg, objs, hist[i]);
    }
  }

  /** History only grows, and what an entry holds never changes. */
  ghost predicate Grows(hist: seq<Stored>, hist': seq<Stored>) {
    && |hist| <= |hist'|
    && forall k :: 0 <= k < |hist| ==> hist'[k].batches == hist[k].batches && hist'[k].indexed == hist[k].indexed
  }

  lemma StepGrows(w: World, a: Action)
    requires Legal(w, a)
    ensures Grows(w.hist, Step(w, a).hist)
  {
    hide AppendBatch, Flush, Restored, Read, Trace, NewRecordBatchFromBytes, Legal, LRU.Put, LRU.Got;
    if a.Open? { LegalOpen(w, a); }
  }

  lemma {:induction false} RunGrows(cfg: Config, actions: seq<Action>, states: seq<World>, i: nat, j: nat)
    requires IsRun(cfg, actions, states) && i <= j < |states|
    ensures Grows(states[i].hist, states[j].hist)
    decreases j - i
  {
    hide Step, Legal;
    if i < j {
      RunGrows(cfg, actions, states, i, j - 1);
      StepGrows(states[j - 1], actions[j - 1]);
    }
  }

  /** A segment object without an index object blocks every later reopen: in no state from there on
      does a reopen succeed, whatever the listing. */
  lemma BlocksReopens(cfg: Config, actions: seq<Action>, states: seq<World>, i: nat, j: nat, base: int,
                      listing: seq<int>, now: int)
    requires IsRun(cfg, actions, states) && i <= j < |states|
    requires base in states[i].objs.data && base !in states[i].objs.index
    requires Lists(listing, states[j].objs)
    ensures Restored(NewLog(states[j].storeNext, now), states[j].objs, listing).Err?
  {
    hide Inv, Restored;
    RunKeeps(cfg, actions, states, i);
    RunKeeps(cfg, actions, states, j);
    RunGrows(cfg, actions, states, i, j);
    ReopensExactlyWhen(cfg, actions, states, j, listing, now);
    StaysIndexless(states[i], states[j], base);
  }

  lemma StaysIndexless(w: World, w': World, base: int)
    requires Inv(w) && Inv(w') && Grows(w.hist, w'.hist) && base in w.objs.data && base !in w.objs.index
    ensures base in w'.objs.data && base !in w'.objs.index
  {
    hide LogOk, Coherent, StoreOk, Durable, Serializable;
    assert HasBase(w.hist, base);
    var k :| 0 <= k < |w.hist| && w.hist[k].batches != [] && Base(w.hist[k]) == base;
    assert Holds(w.cfg, w.objs, w.hist[k]);
    assert Holds(w'.cfg, w'.objs, w'.hist[k]);
  }
}
