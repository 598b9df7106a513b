/** Requests that carry several batches. The broker numbers the first one only, and the processors
    number every batch by its own header (pkg/storage/recordbatch.go, the processors' decoders). */
module FramedRequests {
  import opened Bytes
  import opened Wrappers
  import opened Records
  import opened RecordBatches
  import opened Segments
  import opened PartitionLogs
  import opened LogMachine
  import opened Decoders
  import opened DecodedRuns
  import opened OffsetDeltas

  /** The frames of a request as they are stored when the request is numbered from `n`. */
  function Renumbered(frames: seq<RecordBatch>, n: int): seq<RecordBatch>
    requires frames != [] && |frames[0].data| >= 8
  {
    [Patched(frames[0], n)] + frames[1..]
  }

  /** Numbering a request touches its first frame only. */
  lemma PatchedRequest(wide: bool, frames: seq<RecordBatch>, cs: seq<Content>, n: int)
    requires frames != [] && AllFrame(wide, frames, cs)
    ensures |frames[0].data| >= 8
    ensures var r := NewRecordBatchFromBytes(Concat(frames));
            && r.Ok? && |r.value.data| >= 8 && r.value.lastOffsetDelta == frames[0].lastOffsetDelta
            && Patched(r.value, n).data == Concat(Renumbered(frames, n))
  {
    hide IsFrame, AllReadable, DeltasFit, PutUint64, DecodeBE, Concat;
    var first, rest := frames[0], Concat(frames[1..]);
    assert Frames(wide, first, cs[0]);
    ConcatSplit(frames, 1);
    assert frames[..1] == [first];
    ConcatOne(first);
    var data := Concat(frames);
    assert data == first.data + rest;
    assert data[23..27] == first.data[23..27];
    assert data[8..] == first.data[8..] + rest;
    ConcatSplit(Renumbered(frames, n), 1);
    assert Renumbered(frames, n)[..1] == [Patched(first, n)] && Renumbered(frames, n)[1..] == frames[1..];
    ConcatOne(Patched(first, n));
    var head: bytes := PutUint64(n);
    assert (head + first.data[8..]) + rest == head + (first.data[8..] + rest);
  }

  /** What a processor decodes from a request stored as a segment of its own: the first frame's
      records from `n` on, every other frame's from the base offset the client wrote into it. */
  lemma RequestDecodes(wide: bool, frames: seq<RecordBatch>, cs: seq<Content>, n: int, stamp: Stamp, topic: bytes,
                       partition: int)
    requires frames != [] && AllFrame(wide, frames, cs) && IsInt64(n)
    requires NewRecordBatchFromBytes(Concat(frames)).Ok? && |NewRecordBatchFromBytes(Concat(frames)).value.data| >= 8
    ensures var p := Patched(NewRecordBatchFromBytes(Concat(frames)).value, n);
            DecodeSegment(wide, SegmentBytes([p], stamp), topic, partition)
            == Ok(AllRecords(Renumbered(frames, n), cs, topic, partition))
  {
    hide Frames, Concat, DecodeBatches, AllRecords, Header, Footer, TotalMessages, Patched, NewRecordBatchFromBytes;
    PatchedRequest(wide, frames, cs, n);
    PatchedFrames(wide, frames[0], cs[0], n);
    var p := Patched(NewRecordBatchFromBytes(Concat(frames)).value, n);
    BatchesDecode(wide, Renumbered(frames, n), cs, topic, partition);
    ConcatOne(p);
    var s := SegmentBytes([p], stamp);
    var h := Header(p.baseOffset, TotalMessages([p]), stamp.createdMs);
    assert s[..4] == h[..4];
    assert s[HEADER_LEN..|s| - FOOTER_LEN] == Concat([p]);
  }

  lemma {:induction false} WithinEach(batches: seq<RecordBatch>, cs: seq<Content>, low: int, high: int, topic: bytes,
                                      partition: int)
    requires |cs| == |batches|
    ensures Within(AllRecords(batches, cs, topic, partition), low, high)
       <==> forall i :: 0 <= i < |batches| ==>
              Within(RecordsOf(cs[i].entries, batches[i].baseOffset, cs[i].timestamp, topic, partition), low, high)
  {
    hide Within, RecordsOf;
    if batches == [] {
      WithinNothing(low, high);
    } else {
      var first := RecordsOf(cs[0].entries, batches[0].baseOffset, cs[0].timestamp, topic, partition);
      WithinBoth(first, AllRecords(batches[1..], cs[1..], topic, partition), low, high);
      WithinEach(batches[1..], cs[1..], low, high, topic, partition);
      assert forall i :: 1 <= i < |batches| ==> batches[i] == batches[1..][i - 1] && cs[i] == cs[1..][i - 1];
    }
  }

  lemma WithinNothing(low: int, high: int)
    ensures Within([], low, high)
  {
  }

  lemma WithinBoth(a: seq<Record>, b: seq<Record>, low: int, high: int)
    ensures Within(a + b, low, high) <==> Within(a, low, high) && Within(b, low, high)
  {
    forall i | 0 <= i < |b| ensures b[i] == (a + b)[|a| + i] {
    }
    forall i | 0 <= i < |a| ensures a[i] == (a + b)[i] {
    }
  }

  /** On a drained log a request of any number of frames is acknowledged, and its records are decoded
      at the offsets the append answers if and only if every frame after the first has been given
      such offsets by the client itself. A request of one frame meets that. */
  lemma AsAnsweredExactlyWhen(wide: bool, w: World, log: Log, a: Action, frames: seq<RecordBatch>, cs: seq<Content>,
                              topic: bytes, partition: int)
    requires w.log == Some(log) && log.buffer.batches == [] && Succeeds(a)
    requires frames != [] && AllFrame(wide, frames, cs) && a.records == Concat(frames)
    requires 0 <= log.nextOffset && log.nextOffset + frames[0].lastOffsetDelta < TWO63
    requires IsInt64(log.nextOffset)
    ensures var n, w' := log.nextOffset, DoProduce(w, log, a);
            var last := n + frames[0].lastOffsetDelta;
            && n in w'.objs.data && w'.acked == w.acked + [Patched(Sent(a), n)]
            && Patched(Sent(a), n).LastOffset() == last
            && var d := Decoded(wide, w'.objs, n, topic, partition);
               && d.Ok?
               && (Within(d.value, n, last) <==>
                     forall i :: 1 <= i < |frames| ==>
                       Within(RecordsOf(cs[i].entries, frames[i].baseOffset, cs[i].timestamp, topic, partition),
                              n, last))
  {
    hide DoProduce, SegmentBytes, IndexOf, AllFrame, Concat, DecodeSegment, AllRecords, Within, RecordsOf,
         NewRecordBatchFromBytes, Patched, Renumbered;
    var n := log.nextOffset;
    PatchedRequest(wide, frames, cs, n);
    PatchedKeeps(Sent(a), n);
    var stamp := ProducesAlone(w, log, a);
    StoredUnder(w, DoProduce(w, log, a), log, Patched(Sent(a), n), stamp);
    hide StoresAlone;
    RequestDecodes(wide, frames, cs, n, stamp, topic, partition);
    RequestWithin(wide, frames, cs, n, topic, partition);
  }

  lemma StoredUnder(w: World, w': World, log: Log, p: RecordBatch, stamp: Stamp)
    requires StoresAlone(w, w', log, p, stamp)
    ensures p.baseOffset in w'.objs.data && w'.objs.data[p.baseOffset] == SegmentBytes([p], stamp)
    ensures w'.acked == w.acked + [p]
  {
    hide SegmentBytes;
  }

  lemma RequestWithin(wide: bool, frames: seq<RecordBatch>, cs: seq<Content>, n: int, topic: bytes, partition: int)
    requires frames != [] && AllFrame(wide, frames, cs) && |frames[0].data| >= 8
    requires 0 <= n && IsInt64(n) && n + frames[0].lastOffsetDelta < TWO63
    ensures var last := n + frames[0].lastOffsetDelta;
            Within(AllRecords(Renumbered(frames, n), cs, topic, partition), n, last)
            <==> forall i :: 1 <= i < |frames| ==>
                   Within(RecordsOf(cs[i].entries, frames[i].baseOffset, cs[i].timestamp, topic, partition), n, last)
  {
    hide Frames, AllRecords, Within, RecordsOf, Patched;
    var stored := Renumbered(frames, n);
    var last := n + frames[0].lastOffsetDelta;
    PatchedKeeps(frames[0], n);
    WithinEach(stored, cs, n, last, topic, partition);
    PatchedFrames(wide, frames[0], cs[0], n);
    BatchOffsets(wide, stored[0], cs[0], topic, partition);
    assert forall i :: 1 <= i < |frames| ==> stored[i] == frames[i];
  }

  lemma PatchedKeeps(b: RecordBatch, n: int)
    requires |b.data| >= 8
    ensures Patched(b, n).baseOffset == n && Patched(b, n).lastOffsetDelta == b.lastOffsetDelta
  {
    hide PutUint64;
  }

  /** A frame of one record, as a client numbers it: from 0. */
  function Frame(e: Entry): RecordBatch {
    RecordBatch(0, 0, 1, EncodeBatch(0, Meta(0, 2, 0, 0, 0, 0, 0, 0, 0, 0), [e]))
  }

  /** Two frames in one request, sent to a log that is at `n > 0`: the second record is decoded at
      offset 0, whatever the append answered. */
  lemma SecondFrameElsewhere(wide: bool, e: Entry, n: int, stamp: Stamp, topic: bytes, partition: int)
    requires EntryReadable(wide, e) && e.offsetDelta == 0 && |EncodeEntries([e])| < TWO31 && 0 < n < TWO63
    ensures var data := Frame(e).data + Frame(e).data;
            && NewRecordBatchFromBytes(data).Ok?
            && var p := Patched(NewRecordBatchFromBytes(data).value, n);
               var d := DecodeSegment(wide, SegmentBytes([p], stamp), topic, partition);
               && p.baseOffset == p.LastOffset() == n
               && d.Ok? && |d.value| == 2 && d.value[0].offset == n && d.value[1].offset == 0
  {
    hide EncodeEntries, EntryReadable, EncodeBatch, Frames, DecodeSegment, SegmentBytes, Concat, PutUint64, DecodeBE;
    EncodedFrames(wide, 0, Meta(0, 2, 0, 0, 0, 0, 0, 0, 0, 0), [e]);
    var f, c := Frame(e), Content(0, [e]);
    var frames, cs := [f, f], [c, c];
    TwoFrames(f);
    PatchedRequest(wide, frames, cs, n);
    RequestDecodes(wide, frames, cs, n, stamp, topic, partition);
    assert frames[1..] == [f] && cs[1..] == [c];
    TwoRecords(Patched(f, n), f, c, topic, partition);
  }

  lemma TwoFrames(f: RecordBatch)
    ensures Concat([f, f]) == f.data + f.data
  {
    ConcatSplit([f, f], 1);
    ConcatOne(f);
    assert [f, f][..1] == [f] && [f, f][1..] == [f];
  }

  lemma TwoRecords(a: RecordBatch, b: RecordBatch, c: Content, topic: bytes, partition: int)
    requires |c.entries| == 1
    ensures AllRecords([a, b], [c, c], topic, partition)
         == [RecordOf(c.entries[0], a.baseOffset, c.timestamp, topic, partition),
             RecordOf(c.entries[0], b.baseOffset, c.timestamp, topic, partition)]
  {
    hide RecordOf;
    assert [a, b][1..] == [b] && [c, c][1..] == [c] && [b][1..] == [] && [c][1..] == [];
    var second := RecordOf(c.entries[0], b.baseOffset, c.timestamp, topic, partition);
    assert AllRecords([b], [c], topic, partition) == [second] + AllRecords([], [], topic, partition) == [second];
  }
}
