/** The last-offset delta of a batch header is taken from the client unchecked. What it costs when
    it is negative, and exactly when nothing is lost (pkg/storage/log.go, cmd/broker/main.go). */
module OffsetDeltas {
  import opened Bytes
  import opened Wrappers
  import opened RecordBatches
  import opened WriteBuffers
  import opened SparseIndex
  import opened Segments
  import opened ObjectStore
  import opened ReadPath
  import opened PartitionLogs
  import opened LogMachine
  import opened LogInvariant
  import opened LogRuns
  import opened LogTheorems
  import LRU = SegmentCache

  // ------------------------------------------------------------- one synchronous produce

  /** A synchronous produce of a batch, all of whose uploads succeed. */
  predicate Succeeds(a: Action) {
    && a.Produce? && a.sync && a.append.upload.Uploaded? && a.flush.upload.Uploaded?
    && NewRecordBatchFromBytes(a.records).Ok?
  }

  function Sent(a: Action): RecordBatch
    requires Succeeds(a)
  {
    NewRecordBatchFromBytes(a.records).value
  }

  /** What storing one batch as a segment of its own leaves behind. */
  ghost predicate StoresAlone(w: World, w': World, log: Log, p: RecordBatch, stamp: Stamp) {
    && w'.cfg == w.cfg && w'.acked == w.acked + [p] && w'.log.Some?
    && w'.objs.data == w.objs.data[p.baseOffset := SegmentBytes([p], stamp)]
    && w'.log.value.buffer.batches == []
    && w'.log.value.nextOffset == p.LastOffset() + 1
    && w'.log.value.segments == log.segments + [SegmentRange(p.baseOffset, p.LastOffset(), |SegmentBytes([p], stamp)|)]
    && w'.log.value.index == log.index[p.baseOffset := IndexOf(w.cfg.interval, [p]).entries]
    && w'.cache == (if w.cfg.cacheEnabled
                    then LRU.Put(w.cache, w.cfg.cacheCapacity, w.cfg.CacheKey(p.baseOffset), SegmentBytes([p], stamp))
                    else w.cache)
  }

  lemma FlushesAlone(cfg: Config, log: Log, objs: Objects, cache: LRU.Lru, io: FlushIo, p: RecordBatch)
    requires log.buffer.batches == [p] && p.data != [] && io.upload.Uploaded?
    ensures var o := FlushLocked(cfg, log, objs, cache, io);
            var bytes := SegmentBytes([p], io.stamp);
            && o.result.Ok? && o.log.buffer.batches == [] && o.log.nextOffset == log.nextOffset
            && o.objs.data == objs.data[p.baseOffset := bytes]
            && o.log.segments == log.segments + [SegmentRange(p.baseOffset, p.LastOffset(), |bytes|)]
            && o.log.index == log.index[p.baseOffset := IndexOf(cfg.interval, [p]).entries]
            && o.cache == (if cfg.cacheEnabled then
                             LRU.Put(cache, cfg.cacheCapacity, cfg.CacheKey(p.baseOffset), bytes)
                           else cache)
  {
    hide SegmentBytes, IndexBytes, IndexOf, LRU.Put, LRU.MakeKey, TotalMessages;
  }

  lemma FlushesNothing(cfg: Config, log: Log, objs: Objects, cache: LRU.Lru, io: FlushIo)
    requires log.buffer.batches == []
    ensures var o := FlushLocked(cfg, log, objs, cache, io);
            && o.result.Ok? && o.objs == objs && o.cache == cache
            && o.log == log.(buffer := o.log.buffer) && o.log.buffer.batches == []
  {
    hide Built;
  }

  lemma NumberedAlone(log: Log, batch: RecordBatch)
    requires log.buffer.batches == [] && |batch.data| >= 8
    ensures var log1, p := Numbered(log, batch), Patched(batch, log.nextOffset);
            && log1.buffer.batches == [p] && p.data != [] && p.baseOffset == log.nextOffset
            && log1.nextOffset == p.LastOffset() + 1 && log1.segments == log.segments && log1.index == log.index
  {
  }

  /** On a drained log such a produce stores its batch alone, under the next offset, and is acknowledged,
      whatever its delta. */
  lemma ProducesAlone(w: World, log: Log, a: Action) returns (stamp: Stamp)
    requires w.log == Some(log) && log.buffer.batches == [] && Succeeds(a)
    ensures StoresAlone(w, DoProduce(w, log, a), log, Patched(Sent(a), log.nextOffset), stamp)
    ensures stamp == a.append.stamp || stamp == a.flush.stamp
  {
    hide FlushLocked, SegmentBytes, IndexOf, LRU.Put, LRU.MakeKey, ShouldFlush, Numbered, Patched, Trace;
    var batch := Sent(a);
    var p, log1 := Patched(batch, log.nextOffset), Numbered(log, batch);
    NumberedAlone(log, batch);
    FlushesAlone(w.cfg, log1, w.objs, w.cache, a.append, p);
    FlushesAlone(w.cfg, log1, w.objs, w.cache, a.flush, p);
    if ShouldFlush(w.cfg.buffer, log1.buffer, a.append.now) {
      stamp := a.append.stamp;
      var f := FlushLocked(w.cfg, log1, w.objs, w.cache, a.append);
      FlushesNothing(w.cfg, f.log, f.objs, f.cache, a.flush);
    } else {
      stamp := a.flush.stamp;
    }
  }

  // ----------------------------------------------------------- exactly when nothing is lost

  /** A new object was stored, every earlier one is as it was, and each offset of an earlier object
      is covered by that object and by no other. */
  ghost predicate Undisturbed(before: Objects, after: Objects) {
    && before.data.Keys < after.data.Keys
    && (forall base :: base in before.data ==> base in after.data && after.data[base] == before.data[base])
    && (forall base, o :: Covers(before, base, o) ==> CoveredBy(after, base, o))
  }

  ghost predicate CoveredBy(objs: Objects, base: int, o: int) {
    Covers(objs, base, o) && forall other :: Covers(objs, other, o) ==> other == base
  }

  lemma CoversSame(objs: Objects, objs': Objects, base: int, o: int)
    requires base in objs.data <==> base in objs'.data
    requires base in objs.data ==> objs'.data[base] == objs.data[base]
    ensures Covers(objs, base, o) <==> Covers(objs', base, o)
  {
    hide ParseFooter;
  }

  lemma CoversAlone(objs: Objects, p: RecordBatch, stamp: Stamp, o: int)
    requires IsInt64(p.LastOffset()) && p.baseOffset in objs.data && objs.data[p.baseOffset] == SegmentBytes([p], stamp)
    ensures Covers(objs, p.baseOffset, o) <==> p.baseOffset <= o <= p.LastOffset()
  {
    SegmentFooter([p], stamp);
    hide SegmentBytes, ParseFooter;
  }

  /** In a state whose segments tile [0, n), offset `o` is covered exactly when it is below n, and
      then by the one object that holds it. */
  lemma CoversTiled(w: World, n: int, base: int, o: int)
    requires Inv(w) && w.log.Some? && Tiles(w.log, w.hist) && FirstFree(w.log.value) == n
    ensures n !in w.objs.data
    ensures base in w.objs.data ==> 0 <= base < n
    ensures Covers(w.objs, base, o) ==> base in w.objs.data && 0 <= o < n && CoveredBy(w.objs, base, o)
    ensures 0 <= o < n ==> exists b :: Covers(w.objs, b, o)
  {
    hide LogOk, Coherent, StoreOk, Holds, Serializable, Covers, Durable;
    assert DurableEnd(w.hist) == n && NonEmpty(w.hist);
    forall b | b in w.objs.data ensures 0 <= b < n { BaseBelow(w, b); }
    if Covers(w.objs, base, o) {
      CoversStored(w.objs, base, o);
      assert HasBase(w.hist, base);
      var j :| 0 <= j < |w.hist| && w.hist[j].batches != [] && Base(w.hist[j]) == base;
      CoveringSegment(w.cfg, w.objs, w.hist, j, o);
      BelowDurableEnd(w.hist, j);
      forall other | Covers(w.objs, other, o) ensures other == base {
        SameSegment(w.cfg, w.objs, w.hist, j, other, o);
      }
    }
    if 0 <= o < n { var b := TileCovers(w, o); }
  }

  lemma BaseBelow(w: World, b: int)
    requires Inv(w) && b in w.objs.data
    ensures NonEmpty(w.hist) && 0 <= b < DurableEnd(w.hist)
  {
    hide LogOk, Coherent, StoreOk, Holds, Serializable, Durable;
    assert HasBase(w.hist, b);
    var j :| 0 <= j < |w.hist| && w.hist[j].batches != [] && Base(w.hist[j]) == b;
    FirstNotLast(w.hist[j]);
    BelowDurableEnd(w.hist, j);
  }

  lemma {:induction false} TileCovers(w: World, o: int) returns (b: int)
    requires Inv(w) && w.log.Some? && Tiles(w.log, w.hist) && 0 <= o < FirstFree(w.log.value)
    ensures Covers(w.objs, b, o)
  {
    hide LogOk, Coherent, StoreOk, Holds, Serializable, Covers, Durable;
    var j := 0;
    while Last(w.hist[j]) < o
      invariant j < |w.hist| && Base(w.hist[j]) <= o
      decreases |w.hist| - j
    {
      j := j + 1;
    }
    b := Base(w.hist[j]);
    CoveringSegment(w.cfg, w.objs, w.hist, j, o);
  }

  /** Two batches stored one after the other past [0, n), in terms of objects. */
  ghost predicate StoredTwice(w: World, n: int, o1: Objects, o2: Objects, p1: RecordBatch, p2: RecordBatch, s1: Stamp,
                              s2: Stamp) {
    && Inv(w) && w.log.Some? && Tiles(w.log, w.hist) && FirstFree(w.log.value) == n
    && p1.baseOffset == n >= 0 && p2.baseOffset == p1.LastOffset() + 1 && p2.lastOffsetDelta >= 0
    && IsInt64(p1.LastOffset()) && IsInt64(p2.LastOffset())
    && o1.data == w.objs.data[n := SegmentBytes([p1], s1)]
    && o2.data == o1.data[p2.baseOffset := SegmentBytes([p2], s2)]
  }

  /** What the first one covers, and what was covered before. */
  lemma CoversFirst(w: World, n: int, o1: Objects, o2: Objects, p1: RecordBatch, p2: RecordBatch, s1: Stamp, s2: Stamp,
                    base: int, o: int)
    requires StoredTwice(w, n, o1, o2, p1, p2, s1, s2)
    ensures Covers(o1, base, o) <==> Covers(w.objs, base, o) || (base == n && n <= o <= p1.LastOffset())
    ensures Covers(w.objs, base, o) ==> base < n && 0 <= o < n
    ensures base in o1.data <==> base in w.objs.data || base == n
    ensures base in w.objs.data ==> 0 <= base < n
  {
    hide Inv, Tiles, Covers, SegmentBytes;
    CoversTiled(w, n, base, o);
    if base == n { CoversAlone(o1, p1, s1, o); } else { CoversSame(w.objs, o1, base, o); }
  }

  lemma CoversSecond(w: World, n: int, o1: Objects, o2: Objects, p1: RecordBatch, p2: RecordBatch, s1: Stamp,
                     s2: Stamp, base: int, o: int)
    requires StoredTwice(w, n, o1, o2, p1, p2, s1, s2)
    ensures Covers(o2, base, o) <==> if base == p2.baseOffset then base <= o <= p2.LastOffset() else Covers(o1, base, o)
  {
    hide Inv, Tiles, Covers, SegmentBytes;
    if base == p2.baseOffset { CoversAlone(o2, p2, s2, o); } else { CoversSame(o1, o2, base, o); }
  }

  /** The second batch is numbered below zero and reaches no stored offset. */
  predicate Aside(n: int, p2: RecordBatch) {
    p2.baseOffset < 0 && (n == 0 || p2.LastOffset() < 0)
  }

  lemma FarEnough(w: World, n: int, o1: Objects, o2: Objects, p1: RecordBatch, p2: RecordBatch, s1: Stamp, s2: Stamp)
    requires StoredTwice(w, n, o1, o2, p1, p2, s1, s2)
    requires p1.lastOffsetDelta >= 0 || Aside(n, p2)
    ensures Undisturbed(o1, o2)
  {
    hide Inv, Tiles, Covers, SegmentBytes;
    var m := p2.baseOffset;
    assert m !in o1.data by { CoversFirst(w, n, o1, o2, p1, p2, s1, s2, m, m); }
    forall base, o | Covers(o1, base, o) ensures CoveredBy(o2, base, o) {
      CoversFirst(w, n, o1, o2, p1, p2, s1, s2, base, o);
      CoversSecond(w, n, o1, o2, p1, p2, s1, s2, base, o);
      CoversTiled(w, n, base, o);
      forall other | Covers(o2, other, o) ensures other == base {
        CoversFirst(w, n, o1, o2, p1, p2, s1, s2, other, o);
        CoversSecond(w, n, o1, o2, p1, p2, s1, s2, other, o);
      }
    }
  }

  lemma TooClose(w: World, n: int, o1: Objects, o2: Objects, p1: RecordBatch, p2: RecordBatch, s1: Stamp, s2: Stamp)
    requires StoredTwice(w, n, o1, o2, p1, p2, s1, s2)
    requires p1.lastOffsetDelta < 0 && !Aside(n, p2)
    ensures !Undisturbed(o1, o2)
  {
    hide Inv, Tiles, Covers, SegmentBytes;
    var m := p2.baseOffset;
    var o := if m < 0 then 0 else m;
    if m in o1.data {
      assert o2.data.Keys == o1.data.Keys;
    } else {
      CoversTiled(w, n, m, o);
      var b :| Covers(w.objs, b, o);
      CoversFirst(w, n, o1, o2, p1, p2, s1, s2, b, o);
      CoversSecond(w, n, o1, o2, p1, p2, s1, s2, m, o);
      CoversTiled(w, n, b, o);
      assert b != m;
    }
  }

  /** The exact condition. From any state whose segments tile [0, n) with nothing buffered, produce
      a batch with offset delta `d`, and then one with a delta that is not negative. The second
      leaves everything stored before it, the first batch included, alone if and only if `d` is not
      negative, or the second batch is numbered below zero and reaches no stored offset. */
  lemma UndisturbedExactlyWhen(w: World, a1: Action, a2: Action)
    requires Inv(w) && w.log.Some? && Tiles(w.log, w.hist) && w.log.value.buffer.batches == []
    requires Succeeds(a1) && Succeeds(a2) && Sent(a2).lastOffsetDelta >= 0
    requires w.log.value.nextOffset + Sent(a1).lastOffsetDelta + 1 + Sent(a2).lastOffsetDelta < TWO63
    ensures var n, d := w.log.value.nextOffset, Sent(a1).lastOffsetDelta;
            var w1 := DoProduce(w, w.log.value, a1);
            && w1.log.Some?
            && var w2 := DoProduce(w1, w1.log.value, a2);
               (Undisturbed(w1.objs, w2.objs) <==> d >= 0 || Aside(n, Patched(Sent(a2), n + d + 1)))
  {
    hide Inv, Tiles, DoProduce, SegmentBytes, IndexOf, LRU.Put, Undisturbed, PutUint64;
    var log := w.log.value;
    var n := log.nextOffset;
    NextNonNegative(w);
    Deltas(a1);
    Deltas(a2);
    var s1 := ProducesAlone(w, log, a1);
    var w1 := DoProduce(w, log, a1);
    var s2 := ProducesAlone(w1, w1.log.value, a2);
    var w2 := DoProduce(w1, w1.log.value, a2);
    var p1 := Patched(Sent(a1), n);
    var p2 := Patched(Sent(a2), p1.LastOffset() + 1);
    assert StoredTwice(w, n, w1.objs, w2.objs, p1, p2, s1, s2);
    if p1.lastOffsetDelta >= 0 || Aside(n, p2) {
      FarEnough(w, n, w1.objs, w2.objs, p1, p2, s1, s2);
    } else {
      TooClose(w, n, w1.objs, w2.objs, p1, p2, s1, s2);
    }
  }

  lemma NextNonNegative(w: World)
    requires Inv(w) && w.log.Some?
    ensures w.log.value.nextOffset >= 0
  {
    hide ObjsOk, Coherent, StoreOk, LiveRanges, LiveIndex;
  }

  /** A parsed delta is a 32-bit number. */
  lemma Deltas(a: Action)
    requires Succeeds(a)
    ensures IsInt32(Sent(a).lastOffsetDelta) && |Sent(a).data| >= 8
  {
    hide DecodeBE;
  }

  // ------------------------------------------------------------------ a batch that is lost

  /** Two requests of one bare batch header each: the first carries the delta 0xFFFFFFFF. */
  const MINUS_ONE: bytes := seq(61, i => if 23 <= i < 27 then 255 else 0)
  const ZERO: bytes := seq(61, i => if i == 60 then 1 else 0)

  function Request(records: bytes, io: FlushIo): Action {
    Produce(records, true, io, io, Done, Done)
  }

  lemma FourBytes(s: bytes)
    requires |s| == 4
    ensures var a: int, b: int, c: int, d: int := s[0], s[1], s[2], s[3];
            DecodeBE(s) == ((a * 256 + b) * 256 + c) * 256 + d
  {
    var a: int, b: int, c: int := s[0], s[1], s[2];
    assert s[..3][..2] == s[..2] && s[..2][..1] == s[..1] && s[..1][..0] == [];
    assert DecodeBE(s[..1]) == a;
    assert DecodeBE(s[..2]) == a * 256 + b;
    assert DecodeBE(s[..3]) == (a * 256 + b) * 256 + c;
  }

  lemma RequestDeltas(io: FlushIo)
    requires io.upload.Uploaded?
    ensures Succeeds(Request(MINUS_ONE, io)) && Sent(Request(MINUS_ONE, io)).lastOffsetDelta == -1
    ensures Succeeds(Request(ZERO, io)) && Sent(Request(ZERO, io)).lastOffsetDelta == 0
  {
    hide DecodeBE;
    FourBytes(MINUS_ONE[23..27]);
    FourBytes(ZERO[23..27]);
  }

  /** The state in which a broker that has stored nothing opens the partition. */
  lemma Opened(cfg: Config, now: int)
    ensures var a := Open(true, true, [], now, Done);
            && Legal(Init(cfg), a)
            && Step(Init(cfg), a) == Init(cfg).(log := Some(NewLog(0, now)))
  {
    assert Sorting.SortInts([]) == [];
  }

  ghost predicate Contains(s: bytes, part: bytes) {
    exists i, j :: 0 <= i <= j <= |s| && s[i..j] == part
  }

  /** What a segment of one batch reads as. */
  lemma AloneRead(interval: int, p: RecordBatch, stamp: Stamp, offset: int, maxBytes: int)
    requires p.lastOffsetDelta == 0 && |p.data| == 61 && p.baseOffset <= offset
    ensures var bytes := SegmentBytes([p], stamp);
            var seg := SegmentRange(p.baseOffset, p.LastOffset(), |bytes|);
            SliceCached(seg, IndexOf(interval, [p]).entries, offset, maxBytes, bytes) == Ok(Limited(p.data, maxBytes))
  {
    hide SliceCached, IndexOf, SegmentBytes, Limited;
    var bytes := SegmentBytes([p], stamp);
    var seg := SegmentRange(p.baseOffset, p.LastOffset(), |bytes|);
    ConcatOne(p);
    IndexOfSound(interval, [p]);
    hide IndexSound, Concat;
    var i := SegmentRead(seg, IndexOf(interval, [p]).entries, bytes, [p], stamp, offset, maxBytes);
    assert [p][i..] == [p];
  }

  /** A log that lists an empty range and then the segment of one batch, both at offset 0. */
  ghost predicate Replaced(cfg: Config, w: World, p: RecordBatch, stamp: Stamp) {
    var size := |SegmentBytes([p], stamp)|;
    && w.log.Some? && w.cfg == cfg
    && w.objs.data == map[0 := SegmentBytes([p], stamp)]
    && w.log.value.segments == [SegmentRange(0, -1, size), SegmentRange(0, 0, size)]
    && w.log.value.index == map[0 := IndexOf(cfg.interval, [p]).entries]
    && Coherent(cfg, w.cache, w.objs)
  }

  /** Every read of such a log gives that batch, or nothing. */
  lemma ReplacedReads(cfg: Config, w: World, p: RecordBatch, stamp: Stamp, offset: int, maxBytes: int)
    requires Replaced(cfg, w, p, stamp) && p.baseOffset == 0 && p.lastOffsetDelta == 0 && |p.data| == 61
    ensures Read(cfg, w.log.value, w.objs, w.cache, offset, maxBytes, true).1
         == if offset == 0 then Ok(Limited(p.data, maxBytes)) else Err(OffsetOutOfRange)
  {
    hide SegmentBytes, IndexOf, SliceCached, Read, Coherent, Limited;
    var log := w.log.value;
    assert Sized(log, w.objs);
    ReadPathIndependent(cfg, log, w.objs, w.cache, offset, maxBytes);
    var segs := log.segments;
    assert segs[1..] == [segs[1]] && segs[1..][1..] == [];
    if offset == 0 { AloneRead(cfg.interval, p, stamp, 0, maxBytes); }
  }

  lemma PatchedRequests(io: FlushIo)
    requires io.upload.Uploaded?
    ensures var p1, p2 := Patched(Sent(Request(MINUS_ONE, io)), 0), Patched(Sent(Request(ZERO, io)), 0);
            && p1.baseOffset == 0 && p1.lastOffsetDelta == -1 && |p1.data| == 61 && p1.data[60] == 0
            && p2.baseOffset == 0 && p2.lastOffsetDelta == 0 && |p2.data| == 61 && p2.data[60] == 1
  {
    RequestDeltas(io);
    hide PutUint64, GetInt32, GetInt64;
  }

  /** Storing a segment replaces the cached copy of the one it replaces. */
  lemma CachedLast(cfg: Config, first: bytes, objs: Objects)
    requires 0 in objs.data
    ensures var cache := if cfg.cacheEnabled then LRU.Put([], cfg.cacheCapacity, cfg.CacheKey(0), first) else [];
            Coherent(cfg, if cfg.cacheEnabled
                          then LRU.Put(cache, cfg.cacheCapacity, cfg.CacheKey(0), objs.data[0]) else cache, objs)
  {
    hide LRU.Put, LRU.MakeKey;
    forall base | cfg.CacheKey(base) == cfg.CacheKey(0) ensures base == 0 {
      LRU.MakeKeyInjective(cfg.topicKey, cfg.partition, base, cfg.topicKey, cfg.partition, 0);
    }
  }

  lemma NotInside(p1: bytes, p2: bytes, maxBytes: int)
    requires |p1| == |p2| && p1 != p2
    ensures !Contains(Limited(p2, maxBytes), p1)
  {
  }

  /** Acknowledged, and gone. From the very first state, a client sends a batch whose header says
      -1, and it is acknowledged at offset 0; then a well-formed batch is acknowledged at offset 0,
      too. After that the only object is that of the second batch, a read at the offset the first
      was given returns the second, and no read at any offset has the first one in it. */
  lemma AcknowledgedThenGone(cfg: Config, now: int, io: FlushIo, offset: int, maxBytes: int)
    requires io.upload.Uploaded?
    ensures var w := Step(Init(cfg), Open(true, true, [], now, Done));
            var w1 := DoProduce(w, w.log.value, Request(MINUS_ONE, io));
            && w1.log.Some?
            && var w2 := DoProduce(w1, w1.log.value, Request(ZERO, io));
               var p1, p2 := Patched(Sent(Request(MINUS_ONE, io)), 0), Patched(Sent(Request(ZERO, io)), 0);
               && w2.log.Some? && w2.acked == [p1, p2]
               && w2.objs.data == map[0 := SegmentBytes([p2], io.stamp)]
               && var r := Read(cfg, w2.log.value, w2.objs, w2.cache, offset, maxBytes, true).1;
                  && (offset == 0 ==> r == Ok(Limited(p2.data, maxBytes)))
                  && (r.Ok? ==> !Contains(r.value, p1.data))
  {
    hide DoProduce, SegmentBytes, IndexOf, Succeeds, Sent, Patched, Read, Limited, Step, Legal, LRU.Put;
    Opened(cfg, now);
    RequestDeltas(io);
    var a1, a2 := Request(MINUS_ONE, io), Request(ZERO, io);
    Deltas(a1);
    Deltas(a2);
    var w := Init(cfg).(log := Some(NewLog(0, now)));
    var s1 := ProducesAlone(w, w.log.value, a1);
    var w1 := DoProduce(w, w.log.value, a1);
    var s2 := ProducesAlone(w1, w1.log.value, a2);
    var w2 := DoProduce(w1, w1.log.value, a2);
    var p1, p2 := Patched(Sent(a1), 0), Patched(Sent(a2), 0);
    PatchedRequests(io);
    CachedLast(cfg, SegmentBytes([p1], s1), w2.objs);
    ConcatOne(p1);
    ConcatOne(p2);
    assert Replaced(cfg, w2, p2, s2);
    ReplacedReads(cfg, w2, p2, s2, offset, maxBytes);
    NotInside(p1.data, p2.data, maxBytes);
  }
}
