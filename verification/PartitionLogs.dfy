/** The partition log as a value: what AppendBatch, Flush, RestoreFromS3 and Read do to
    (log, objects, cache), with the clock and the outcome of every upload as inputs
    (pkg/storage/log.go). */
module PartitionLogs {
  import opened Bytes
  import opened Sorting
  import opened Wrappers
  import opened RecordBatches
  import opened WriteBuffers
  import opened SparseIndex
  import opened Segments
  import opened ObjectStore
  import opened ReadPath
  import LRU = SegmentCache

  datatype Config = Config(buffer: BufferConfig, interval: int, cacheEnabled: bool, cacheCapacity: nat,
                           topicKey: string, partition: int) {
    function CacheKey(base: int): string { LRU.MakeKey(topicKey, partition, base) }
  }

  datatype Log = Log(nextOffset: int, buffer: Buffer, segments: seq<SegmentRange>, index: map<int, seq<IndexEntry>>)

  /** An upload that reports failure may nevertheless have stored its object. */
  datatype Upload = Uploaded | SegmentFailed(stored: bool) | IndexFailed(stored: bool)

  datatype FlushIo = FlushIo(now: int, stamp: Stamp, upload: Upload)

  datatype AppendResult = AppendResult(baseOffset: int, lastOffset: int)

  /** `notify` is the last offset handed to the onFlush callback, if it is called. */
  datatype Outcome<T> = Outcome(log: Log, objs: Objects, cache: LRU.Lru, result: Result<T>, notify: Option<int>)

  function NewLog(startOffset: int, now: int): Log {
    Log(startOffset, Buffer([], 0, 0, now), [], map[])
  }

  function FlushLocked(cfg: Config, log: Log, objs: Objects, cache: LRU.Lru, io: FlushIo): Outcome<Option<Artifact>> {
    var drained := log.(buffer := Drained(log.buffer, io.now));
    if log.buffer.batches == [] then Outcome(drained, objs, cache, Ok(None), None)
    else
      match Built(cfg.interval, log.buffer.batches, io.stamp)
      case Err(e) => Outcome(drained, objs, cache, Err(e), None)
      case Ok(a) =>
        var withSegment := objs.(data := objs.data[a.baseOffset := a.segmentBytes]);
        var withIndex := withSegment.(index := objs.index[a.baseOffset := a.indexBytes]);
        match io.upload
        case SegmentFailed(stored) =>
          Outcome(drained, if stored then withSegment else objs, cache, Err(Unavailable), None)
        case IndexFailed(stored) =>
          Outcome(drained, if stored then withIndex else withSegment, cache, Err(Unavailable), None)
        case Uploaded =>
          var seg := SegmentRange(a.baseOffset, a.lastOffset, |a.segmentBytes|);
          Outcome(drained.(segments := log.segments + [seg], index := log.index[a.baseOffset := a.relativeIndex]),
                  withIndex,
                  if cfg.cacheEnabled
                  then LRU.Put(cache, cfg.cacheCapacity, cfg.CacheKey(a.baseOffset), a.segmentBytes) else cache,
                  Ok(Some(a)), None)
  }

  /** Numbering and buffering, before any flush. */
  function Numbered(log: Log, batch: RecordBatch): Log
    requires |batch.data| >= 8
  {
    log.(nextOffset := log.nextOffset + batch.lastOffsetDelta + 1,
         buffer := Appended(log.buffer, Patched(batch, log.nextOffset)))
  }

  function AppendBatch(cfg: Config, log: Log, objs: Objects, cache: LRU.Lru, batch: RecordBatch,
                       io: FlushIo): Outcome<AppendResult>
    requires |batch.data| >= 8
  {
    var log1 := Numbered(log, batch);
    var result := AppendResult(log.nextOffset, log1.nextOffset - 1);
    if ShouldFlush(cfg.buffer, log1.buffer, io.now) then
      var f := FlushLocked(cfg, log1, objs, cache, io);
      match f.result
      case Err(e) => Outcome(f.log, f.objs, f.cache, Err(e), None)
      case Ok(a) => Outcome(f.log, f.objs, f.cache, Ok(result), if a.Some? then Some(a.value.lastOffset) else None)
    else Outcome(log1, objs, cache, Ok(result), None)
  }

  function Flush(cfg: Config, log: Log, objs: Objects, cache: LRU.Lru, io: FlushIo): Outcome<()> {
    var f := FlushLocked(cfg, log, objs, cache, io);
    match f.result
    case Err(e) => Outcome(f.log, f.objs, f.cache, Err(e), None)
    case Ok(a) =>
      var current := f.log.nextOffset - 1;
      Outcome(f.log, f.objs, f.cache, Ok(()),
              if a.Some? then Some(a.value.lastOffset) else if current >= 0 then Some(current) else None)
  }

  // ------------------------------------------------------------------- recovery

  function Tail(data: bytes): bytes
    requires |data| >= FOOTER_LEN
  {
    data[|data| - FOOTER_LEN..]
  }

  predicate Footed(objs: Objects, base: int) {
    base in objs.data && |objs.data[base]| >= FOOTER_LEN && ParseFooter(Tail(objs.data[base])).Ok?
  }

  predicate Indexed(objs: Objects, base: int) {
    base in objs.index && ParsedIndex(objs.index[base]).Ok?
  }

  function RestoredRange(objs: Objects, base: int): SegmentRange
    requires Footed(objs, base)
  {
    SegmentRange(base, ParseFooter(Tail(objs.data[base])).value, |objs.data[base]|)
  }

  /** Objects too small for a footer are skipped. */
  function Candidates(objs: Objects, listing: seq<int>): (r: seq<int>)
    requires forall b :: b in listing ==> b in objs.data
    ensures forall b :: b in r <==> b in listing && |objs.data[b]| >= FOOTER_LEN
  {
    if listing == [] then []
    else
      var b := listing[|listing| - 1];
      Candidates(objs, listing[..|listing| - 1]) + (if |objs.data[b]| >= FOOTER_LEN then [b] else [])
  }

  /** RestoreFromS3 over the segment objects in the order `listing` found them: the
      rebuilt log and the last durable offset (-1 when there is none), or a refusal. */
  function Restored(log: Log, objs: Objects, listing: seq<int>): Result<(Log, int)>
    requires forall b :: b in listing ==> b in objs.data
  {
    RestoredFrom(log, objs, SortInts(Candidates(objs, listing)))
  }

  predicate AllFooted(objs: Objects, bases: seq<int>) {
    forall i :: 0 <= i < |bases| ==> Footed(objs, bases[i])
  }

  predicate AllParsed(objs: Objects, bases: seq<int>) {
    forall i :: 0 <= i < |bases| ==> Indexed(objs, bases[i])
  }

  function RestoredRanges(objs: Objects, bases: seq<int>): (r: seq<SegmentRange>)
    requires AllFooted(objs, bases)
    ensures |r| == |bases| && forall i :: 0 <= i < |r| ==> r[i] == RestoredRange(objs, bases[i])
  {
    if bases == [] then []
    else RestoredRanges(objs, bases[..|bases| - 1]) + [RestoredRange(objs, bases[|bases| - 1])]
  }

  function RestoredIndex(objs: Objects, bases: seq<int>): (m: map<int, seq<IndexEntry>>)
    requires AllParsed(objs, bases)
    ensures forall b :: b in m <==> b in bases
    ensures forall b :: b in m ==> b in objs.index && m[b] == ParsedIndex(objs.index[b]).value
  {
    if bases == [] then map[]
    else
      var b := bases[|bases| - 1];
      RestoredIndex(objs, bases[..|bases| - 1])[b := ParsedIndex(objs.index[b]).value]
  }

  function IndexFailure(objs: Objects, base: int): Error {
    if base in objs.index && ParsedIndex(objs.index[base]) == Err(Panic) then Panic else Unavailable
  }

  /** What loading the indexes in order ends with when one is missing or refused. */
  function FirstFailure(objs: Objects, bases: seq<int>): Error
    requires !AllParsed(objs, bases)
  {
    if !Indexed(objs, bases[0]) then IndexFailure(objs, bases[0]) else FirstFailure(objs, bases[1..])
  }

  lemma {:induction false} FirstFailureAt(objs: Objects, bases: seq<int>, i: nat)
    requires i < |bases| && AllParsed(objs, bases[..i]) && !Indexed(objs, bases[i])
    ensures !AllParsed(objs, bases) && FirstFailure(objs, bases) == IndexFailure(objs, bases[i])
  {
    hide Indexed, IndexFailure;
    if i > 0 {
      assert bases[..i][0] == bases[0] && bases[1..][..i - 1] == bases[..i][1..];
      FirstFailureAt(objs, bases[1..], i - 1);
    }
  }

  /** Index objects that the log wrote never make loading panic. */
  lemma {:induction false} NoPanic(objs: Objects, bases: seq<int>)
    requires !AllParsed(objs, bases)
    requires forall b :: b in bases && b in objs.index ==> Indexed(objs, b)
    ensures FirstFailure(objs, bases) == Unavailable
  {
    hide ParsedIndex;
    if Indexed(objs, bases[0]) { NoPanic(objs, bases[1..]); }
  }

  function RestoredFrom(log: Log, objs: Objects, bases: seq<int>): Result<(Log, int)> {
    if !AllFooted(objs, bases) then Err(Malformed)
    else if bases == [] then Ok((log, -1))
    else if !AllParsed(objs, bases) then Err(FirstFailure(objs, bases))
    else
      var segments := RestoredRanges(objs, bases);
      var last := segments[|bases| - 1].lastOffset;
      Ok((log.(segments := segments, index := RestoredIndex(objs, bases),
               nextOffset := if last >= log.nextOffset then last + 1 else log.nextOffset), last))
  }

  // ---------------------------------------------------------------------- reads

  function FindSegment(segments: seq<SegmentRange>, offset: int): (r: Option<SegmentRange>)
    ensures r.Some? ==> r.value in segments && r.value.baseOffset <= offset <= r.value.lastOffset
    ensures r.None? ==> forall s :: s in segments ==> !(s.baseOffset <= offset <= s.lastOffset)
  {
    if segments == [] then None
    else if segments[0].baseOffset <= offset <= segments[0].lastOffset then Some(segments[0])
    else FindSegment(segments[1..], offset)
  }

  function EntriesOf(log: Log, base: int): seq<IndexEntry> {
    if base in log.index then log.index[base] else []
  }

  /** Read: cache, else ranged download, else full download. `available` is whether a download works. */
  function Read(cfg: Config, log: Log, objs: Objects, cache: LRU.Lru, offset: int, maxBytes: int,
                available: bool): (LRU.Lru, Result<bytes>) {
    match FindSegment(log.segments, offset)
    case None => (cache, Err(OffsetOutOfRange))
    case Some(seg) =>
      var entries := EntriesOf(log, seg.baseOffset);
      var key := cfg.CacheKey(seg.baseOffset);
      var cached := if cfg.cacheEnabled then LRU.Find(cache, key) else None;
      if cached.Some? then (LRU.Got(cache, key), SliceCached(seg, entries, offset, maxBytes, cached.value))
      else if !available then (cache, Err(Unavailable))
      else
        match SegmentRangeForOffset(seg, entries, offset, maxBytes)
        case Some(rng) => (cache, Downloaded(objs, seg.baseOffset, Some(rng)))
        case None =>
          match Downloaded(objs, seg.baseOffset, None)
          case Err(e) => (cache, Err(e))
          case Ok(data) =>
            (if cfg.cacheEnabled then LRU.Put(cache, cfg.cacheCapacity, key, data) else cache,
             SliceCached(seg, entries, offset, maxBytes, data))
  }

  /** Cached copies of this partition's segments equal the stored objects. */
  ghost predicate Coherent(cfg: Config, cache: LRU.Lru, objs: Objects) {
    forall base, data :: LRU.Entry(cfg.CacheKey(base), data) in cache ==> base in objs.data && objs.data[base] == data
  }

  /** Every listed segment is stored, with the recorded size. */
  ghost predicate Sized(log: Log, objs: Objects) {
    forall s :: s in log.segments ==> s.baseOffset in objs.data && |objs.data[s.baseOffset]| == s.size
  }

  /** The answer a read must give, with no cache and no ranges in it. */
  function PlainRead(log: Log, objs: Objects, offset: int, maxBytes: int): Result<bytes> {
    match FindSegment(log.segments, offset)
    case None => Err(OffsetOutOfRange)
    case Some(seg) =>
      if seg.baseOffset !in objs.data then Err(NotFound)
      else SliceCached(seg, EntriesOf(log, seg.baseOffset), offset, maxBytes, objs.data[seg.baseOffset])
  }

  /** A read is the same whichever path serves it. */
  lemma ReadPathIndependent(cfg: Config, log: Log, objs: Objects, cache: LRU.Lru, offset: int, maxBytes: int)
    requires Coherent(cfg, cache, objs) && Sized(log, objs)
    ensures Read(cfg, log, objs, cache, offset, maxBytes, true).1 == PlainRead(log, objs, offset, maxBytes)
    ensures var r := Read(cfg, log, objs, cache, offset, maxBytes, false).1;
            r == PlainRead(log, objs, offset, maxBytes) || r == Err(Unavailable)
  {
    match FindSegment(log.segments, offset)
    case None =>
    case Some(seg) =>
      PathsAgree(seg, EntriesOf(log, seg.baseOffset), offset, maxBytes, objs.data[seg.baseOffset]);
  }

  /** Storing a true copy, or using the cache for anything else, keeps it coherent. */
  lemma CoherentPut(cfg: Config, cache: LRU.Lru, objs: Objects, key: string, data: bytes)
    requires Coherent(cfg, cache, objs)
    requires forall base :: cfg.CacheKey(base) == key ==> base in objs.data && objs.data[base] == data
    ensures Coherent(cfg, LRU.Put(cache, cfg.cacheCapacity, key, data), objs)
    ensures Coherent(cfg, LRU.Got(cache, key), objs)
  {
  }

  lemma ReadKeepsCoherent(cfg: Config, log: Log, objs: Objects, cache: LRU.Lru, offset: int, maxBytes: int,
                          available: bool)
    requires Coherent(cfg, cache, objs)
    ensures Coherent(cfg, Read(cfg, log, objs, cache, offset, maxBytes, available).0, objs)
  {
    match FindSegment(log.segments, offset)
    case None =>
    case Some(seg) =>
      var b := seg.baseOffset;
      if b in objs.data {
        forall base | cfg.CacheKey(base) == cfg.CacheKey(b) ensures base == b {
          LRU.MakeKeyInjective(cfg.topicKey, cfg.partition, base, cfg.topicKey, cfg.partition, b);
        }
        CoherentPut(cfg, cache, objs, cfg.CacheKey(b), objs.data[b]);
      }
  }
}
