/** The partition log as the object it is in the source: fields updated in place under one
    lock, over a buffer, an object store and a cache. Every method is the value-level
    definition of the same name applied to the object's state. */
module PartitionLogObject {
  import opened Bytes
  import opened Sorting
  import opened Wrappers
  import opened RecordBatches
  import opened WriteBuffers
  import opened SparseIndex
  import opened Segments
  import opened ObjectStore
  import opened ReadPath
  import L = PartitionLogs
  import opened LogMachine
  import LRU = SegmentCache

  class PartitionLog {
    const cfg: L.Config
    const buffer: WriteBuffer
    const s3: MemoryS3
    const cache: LRU.Cache
    var nextOffset: int
    var segments: seq<SegmentRange>
    var indexEntries: map<int, seq<IndexEntry>>

    ghost predicate Valid()
      reads this, buffer, s3, cache
    {
      && cache.Valid() && cache.capacity == cfg.cacheCapacity
      && Counted(buffer.View()) && buffer.cfg == cfg.buffer
    }

    ghost function View(): L.Log
      reads this, buffer
    {
      L.Log(nextOffset, buffer.View(), segments, indexEntries)
    }

    constructor (cfg: L.Config, startOffset: int, s3: MemoryS3, cache: LRU.Cache, now: int)
      requires cache.Valid() && cache.capacity == cfg.cacheCapacity
      ensures Valid() && this.cfg == cfg && this.s3 == s3 && this.cache == cache && fresh(buffer)
      ensures View() == L.NewLog(startOffset, now)
    {
      this.cfg, this.s3, this.cache := cfg, s3, cache;
      buffer := new WriteBuffer(cfg.buffer, now);
      nextOffset, segments, indexEntries := startOffset, [], map[];
    }

    /** Drains the buffer first, so a failed upload loses the drained batches. */
    method FlushLocked(io: L.FlushIo) returns (r: Result<Option<Artifact>>)
      requires Valid()
      modifies this, buffer, s3, cache
      ensures Valid()
      ensures var o := L.FlushLocked(cfg, old(View()), old(s3.View()), old(cache.View()), io);
              View() == o.log && s3.View() == o.objs && cache.View() == o.cache && r == o.result
    {
      hide LRU.Put, LRU.MakeKey, Built, LRU.SameKeys, LRU.Size;
      var batches := buffer.Drain(io.now);
      if |batches| == 0 { return Ok(None); }
      var built := BuildSegment(cfg.interval, batches, io.stamp);
      if built.Err? { return Err(built.error); }
      var artifact := built.value;
      if io.upload.SegmentFailed? {
        if io.upload.stored { s3.UploadSegment(artifact.baseOffset, artifact.segmentBytes); }
        return Err(Unavailable);
      }
      s3.UploadSegment(artifact.baseOffset, artifact.segmentBytes);
      if io.upload.IndexFailed? {
        if io.upload.stored { s3.UploadIndex(artifact.baseOffset, artifact.indexBytes); }
        return Err(Unavailable);
      }
      s3.UploadIndex(artifact.baseOffset, artifact.indexBytes);
      if cfg.cacheEnabled {
        cache.SetSegment(cfg.topicKey, cfg.partition, artifact.baseOffset, artifact.segmentBytes);
      }
      segments := segments + [SegmentRange(artifact.baseOffset, artifact.lastOffset, |artifact.segmentBytes|)];
      indexEntries := indexEntries[artifact.baseOffset := artifact.relativeIndex];
      return Ok(Some(artifact));
    }

    /** `notify` is the last offset passed to the flush callback, if it is called. */
    method AppendBatch(batch: RecordBatch, io: L.FlushIo) returns (r: Result<L.AppendResult>, notify: Option<int>)
      requires Valid() && |batch.data| >= 8
      modifies this, buffer, s3, cache
      ensures Valid()
      ensures var o := L.AppendBatch(cfg, old(View()), old(s3.View()), old(cache.View()), batch, io);
              View() == o.log && s3.View() == o.objs && cache.View() == o.cache && r == o.result && notify == o.notify
    {
      hide L.FlushLocked, PutUint64, LRU.SameKeys, LRU.Size;
      var baseOffset := nextOffset;
      var patched := Patched(batch, baseOffset);
      nextOffset := baseOffset + batch.lastOffsetDelta + 1;
      buffer.Append(patched);
      var result := L.AppendResult(baseOffset, nextOffset - 1);
      var due := buffer.Due(io.now);
      if due {
        var flushed := FlushLocked(io);
        if flushed.Err? { return Err(flushed.error), None; }
        return Ok(result), if flushed.value.Some? then Some(flushed.value.value.lastOffset) else None;
      }
      return Ok(result), None;
    }

    method Flush(io: L.FlushIo) returns (r: Result<()>, notify: Option<int>)
      requires Valid()
      modifies this, buffer, s3, cache
      ensures Valid()
      ensures var o := L.Flush(cfg, old(View()), old(s3.View()), old(cache.View()), io);
              View() == o.log && s3.View() == o.objs && cache.View() == o.cache && r == o.result && notify == o.notify
    {
      hide L.FlushLocked, LRU.SameKeys, LRU.Size;
      var artifact := FlushLocked(io);
      if artifact.Err? { return Err(artifact.error), None; }
      if artifact.value.Some? { return Ok(()), Some(artifact.value.value.lastOffset); }
      var current := nextOffset - 1;
      return Ok(()), if current >= 0 then Some(current) else None;
    }

    /** Rebuilds segments, index entries and next offset; `listing` is the order in which the
        store named its objects. Nothing changes unless it succeeds. */
    method RestoreFromS3(reachable: bool) returns (r: Result<int>, ghost listing: seq<int>)
      modifies this
      ensures Lists(listing, s3.View())
      ensures !reachable ==> r == Err(Unavailable) && View() == old(View())
      ensures reachable ==>
                match L.Restored(old(View()), s3.View(), listing)
                case Err(e) => r == Err(e) && View() == old(View())
                case Ok((log, last)) => r == Ok(last) && View() == log
    {
      var objects := s3.ListSegments();
      listing := objects;
      if !reachable { return Err(Unavailable), listing; }
      ghost var objs := s3.View();
      var found := Footers(objects, objs);
      hide SortInts, L.Candidates, L.AllFooted, L.AllParsed, L.RestoredIndex, Lists;
      if found.Err? { return Err(found.error), listing; }
      var bases := SortInts(found.value);
      if |bases| == 0 { return Ok(-1), listing; }
      var loaded := Indexes(bases, objs);
      if loaded.Err? { return Err(loaded.error), listing; }
      var last := loaded.value.0[|bases| - 1].lastOffset;
      segments, indexEntries := loaded.value.0, loaded.value.1;
      if last >= nextOffset { nextOffset := last + 1; }
      return Ok(last), listing;
    }

    /** Reads the footer of every object big enough to have one. */
    method Footers(objects: seq<int>, ghost objs: Objects) returns (r: Result<seq<int>>)
      requires objs == s3.View() && Lists(objects, objs)
      ensures r == if L.AllFooted(objs, SortInts(L.Candidates(objs, objects)))
                   then Ok(L.Candidates(objs, objects)) else Err(Malformed)
    {
      hide ParseFooter, SortInts;
      var candidates: seq<int> := [];
      for i := 0 to |objects|
        invariant candidates == L.Candidates(objs, objects[..i])
        invariant forall b :: b in candidates ==> L.Footed(objs, b)
      {
        var base := objects[i];
        assert objects[..i + 1][..i] == objects[..i];
        if |s3.data[base]| >= FOOTER_LEN {
          var size := |s3.data[base]|;
          var footer := s3.DownloadSegment(base, Some(ByteRange(size - FOOTER_LEN, size - 1)));
          RangedTail(s3.data[base]);
          var parsed := ParseFooter(footer.value);
          if parsed.Err? {
            NotFooted(objs, objects, base);
            return Err(Malformed);
          }
          candidates := candidates + [base];
        }
      }
      assert objects[..|objects|] == objects;
      CandidatesSorted(objs, objects);
      return Ok(candidates);
    }

    /** Downloads and parses the index of every segment, in base order. */
    method Indexes(bases: seq<int>, ghost objs: Objects)
      returns (r: Result<(seq<SegmentRange>, map<int, seq<IndexEntry>>)>)
      requires objs == s3.View()
      requires L.AllFooted(objs, bases)
      ensures r == if L.AllParsed(objs, bases)
                   then Ok((L.RestoredRanges(objs, bases), L.RestoredIndex(objs, bases)))
                   else Err(L.FirstFailure(objs, bases))
    {
      hide ParsedIndex, ParseFooter, L.AllParsed, L.AllFooted, L.RestoredRanges, L.RestoredIndex;
      RestoredNone(objs, bases);
      var ranges: seq<SegmentRange> := [];
      var byBase: map<int, seq<IndexEntry>> := map[];
      for i := 0 to |bases|
        invariant L.AllFooted(objs, bases[..i]) && L.AllParsed(objs, bases[..i])
        invariant ranges == L.RestoredRanges(objs, bases[..i])
        invariant byBase == L.RestoredIndex(objs, bases[..i])
      {
        var base := bases[i];
        var indexBytes := s3.DownloadIndex(base);
        RestoredNext(objs, bases, i);
        if indexBytes.Err? {
          L.FirstFailureAt(objs, bases, i);
          return Err(Unavailable);
        }
        var parsed := ParseIndex(indexBytes.value);
        if parsed.Err? {
          L.FirstFailureAt(objs, bases, i);
          return Err(if parsed.error == Panic then Panic else Unavailable);
        }
        var last := ParseFooter(L.Tail(s3.data[base])).value;
        ranges := ranges + [SegmentRange(base, last, |s3.data[base]|)];
        byBase := byBase[base := parsed.value];
      }
      assert bases[..|bases|] == bases;
      return Ok((ranges, byBase));
    }

    method Read(offset: int, maxBytes: int, available: bool) returns (r: Result<bytes>)
      requires Valid()
      modifies cache
      ensures Valid()
      ensures var (c, answer) := L.Read(cfg, View(), s3.View(), old(cache.View()), offset, maxBytes, available);
              cache.View() == c && r == answer
    {
      hide SliceCached, SegmentRangeForOffset, LRU.Put, LRU.Find, LRU.MakeKey, LRU.SameKeys, LRU.Size, Ranged;
      var seg: SegmentRange := SegmentRange(0, 0, 0);
      var found := false;
      for i := 0 to |segments|
        invariant !found
        invariant L.FindSegment(segments, offset) == L.FindSegment(segments[i..], offset)
      {
        if segments[i].baseOffset <= offset <= segments[i].lastOffset {
          seg, found := segments[i], true;
          break;
        }
        assert segments[i..][1..] == segments[i + 1..];
      }
      if !found { return Err(OffsetOutOfRange); }
      assert L.FindSegment(segments, offset) == Some(seg);
      var entries := if seg.baseOffset in indexEntries then indexEntries[seg.baseOffset] else [];
      if cfg.cacheEnabled {
        var cached := cache.GetSegment(cfg.topicKey, cfg.partition, seg.baseOffset);
        if cached.Some? { return SliceCached(seg, entries, offset, maxBytes, cached.value); }
      }
      assert cache.View() == old(cache.View());
      if !available { return Err(Unavailable); }
      var rng := SegmentRangeForOffset(seg, entries, offset, maxBytes);
      if rng.Some? {
        r := s3.DownloadSegment(seg.baseOffset, rng);
        return r;
      }
      var whole := s3.DownloadSegment(seg.baseOffset, None);
      if whole.Err? { return whole; }
      if cfg.cacheEnabled { cache.SetSegment(cfg.topicKey, cfg.partition, seg.baseOffset, whole.value); }
      return SliceCached(seg, entries, offset, maxBytes, whole.value);
    }
  }

  lemma RestoredNone(objs: Objects, bases: seq<int>)
    ensures L.AllFooted(objs, bases[..0]) && L.RestoredRanges(objs, bases[..0]) == []
    ensures L.AllParsed(objs, bases[..0]) && L.RestoredIndex(objs, bases[..0]) == map[]
  {
  }

  lemma RestoredNext(objs: Objects, bases: seq<int>, i: nat)
    requires i < |bases| && L.AllFooted(objs, bases) && L.AllParsed(objs, bases[..i])
    ensures L.Footed(objs, bases[i]) && L.AllFooted(objs, bases[..i]) && L.AllFooted(objs, bases[..i + 1])
    ensures L.RestoredRanges(objs, bases[..i + 1])
            == L.RestoredRanges(objs, bases[..i]) + [L.RestoredRange(objs, bases[i])]
    ensures L.AllParsed(objs, bases) ==> L.Indexed(objs, bases[i])
    ensures L.Indexed(objs, bases[i]) ==>
              L.AllParsed(objs, bases[..i + 1])
              && L.RestoredIndex(objs, bases[..i + 1])
                  == L.RestoredIndex(objs, bases[..i])[bases[i] := ParsedIndex(objs.index[bases[i]]).value]
  {
    hide L.Footed, ParsedIndex;
    assert bases[..i + 1][..i] == bases[..i];
  }

  lemma RangedTail(data: bytes)
    requires |data| >= FOOTER_LEN
    ensures Ranged(data, ByteRange(|data| - FOOTER_LEN, |data| - 1)) == Ok(L.Tail(data))
  {
    assert data[|data| - FOOTER_LEN..|data|] == data[|data| - FOOTER_LEN..];
  }

  lemma {:induction false} CandidatesDistinct(objs: Objects, listing: seq<int>)
    requires forall b :: b in listing ==> b in objs.data
    requires Distinct(listing)
    ensures Distinct(L.Candidates(objs, listing))
  {
    if listing != [] {
      var n := |listing| - 1;
      var front := L.Candidates(objs, listing[..n]);
      CandidatesDistinct(objs, listing[..n]);
      assert forall i :: 0 <= i < |front| ==> front[i] in front;
      assert listing[n] !in listing[..n];
    }
  }

  lemma CandidatesSorted(objs: Objects, listing: seq<int>)
    requires Lists(listing, objs)
    ensures forall b :: b in SortInts(L.Candidates(objs, listing)) <==> b in L.Candidates(objs, listing)
  {
    CandidatesDistinct(objs, listing);
    hide SortInts, L.Candidates;
    SortIntsSorted(L.Candidates(objs, listing));
  }

  lemma NotFooted(objs: Objects, listing: seq<int>, base: int)
    requires Lists(listing, objs) && base in listing && |objs.data[base]| >= FOOTER_LEN && !L.Footed(objs, base)
    ensures !L.AllFooted(objs, SortInts(L.Candidates(objs, listing)))
  {
    hide SortInts, L.Candidates, L.Footed;
    CandidatesSorted(objs, listing);
    var bases := SortInts(L.Candidates(objs, listing));
    assert base in bases;
    var i :| 0 <= i < |bases| && bases[i] == base;
    assert !L.Footed(objs, bases[i]);
  }
}
