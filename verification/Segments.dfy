/** Segment serialization: 32-byte header, batches, 16-byte footer (pkg/storage/segment.go). */
module Segments {
  import opened Bytes
  import opened Wrappers
  import opened RecordBatches
  import opened SparseIndex

  const HEADER_LEN := 32
  const FOOTER_LEN := 16
  const SEGMENT_MAGIC: bytes := [0x4B, 0x41, 0x46, 0x53]  // "KAFS"
  const FOOTER_MAGIC: bytes := [0x45, 0x4E, 0x44, 0x21]   // "END!"

  /** What the clock and the checksum library contribute to one segment. */
  datatype Stamp = Stamp(createdMs: int, crc: int)

  datatype Artifact = Artifact(baseOffset: int, lastOffset: int, messageCount: int,
                               segmentBytes: bytes, indexBytes: bytes, relativeIndex: seq<IndexEntry>)

  function Header(baseOffset: int, messageCount: int, createdMs: int): (s: bytes)
    ensures |s| == HEADER_LEN && s[..4] == SEGMENT_MAGIC
  {
    SEGMENT_MAGIC + PutUint16(1) + PutUint16(0) + PutUint64(baseOffset)
    + PutUint32(messageCount) + PutUint64(createdMs) + PutUint32(0)
  }

  function Footer(crc: int, lastOffset: int): (s: bytes)
    ensures |s| == FOOTER_LEN
  {
    PutUint32(crc) + PutUint64(lastOffset) + FOOTER_MAGIC
  }

  function ParseFooter(data: bytes): Result<int> {
    if |data| < FOOTER_LEN then Err(Malformed)
    else if data[12..16] != FOOTER_MAGIC then Err(Malformed)
    else Ok(GetInt64(data[4..12]))
  }

  lemma FooterRoundTrip(crc: int, lastOffset: int)
    requires IsInt64(lastOffset)
    ensures ParseFooter(Footer(crc, lastOffset)) == Ok(lastOffset)
    ensures DecodeBE(Footer(crc, lastOffset)[..4]) == crc % TWO32
  {
    var f := Footer(crc, lastOffset);
    assert f[..4] == PutUint32(crc);
    GetPut32(crc);
    assert f[4..12] == PutUint64(lastOffset);
    assert f[12..16] == FOOTER_MAGIC;
    GetPut64(lastOffset);
  }

  /** Message total of the header, in the source's 32-bit arithmetic. */
  function TotalMessages(batches: seq<RecordBatch>): int {
    if batches == [] then 0
    else ToInt32(TotalMessages(batches[..|batches| - 1]) + batches[|batches| - 1].messageCount)
  }

  /** The builder after offering it every batch in order. */
  function IndexOf(interval: int, batches: seq<RecordBatch>): Builder {
    if batches == [] then NewBuilder(interval)
    else
      var front := batches[..|batches| - 1];
      var b := batches[|batches| - 1];
      MaybeAdd(IndexOf(interval, front), b.baseOffset, ToInt32(HEADER_LEN + |Concat(front)|), b.messageCount)
  }

  function SegmentBytes(batches: seq<RecordBatch>, stamp: Stamp): (s: bytes)
    requires batches != []
    ensures |s| == HEADER_LEN + |Concat(batches)| + FOOTER_LEN
  {
    Header(batches[0].baseOffset, TotalMessages(batches), stamp.createdMs)
    + Concat(batches)
    + Footer(stamp.crc, batches[|batches| - 1].LastOffset())
  }

  function ArtifactOf(interval: int, batches: seq<RecordBatch>, stamp: Stamp): Artifact
    requires batches != []
  {
    var index := IndexOf(interval, batches);
    Artifact(batches[0].baseOffset, batches[|batches| - 1].LastOffset(), TotalMessages(batches),
             SegmentBytes(batches, stamp), IndexBytes(index), index.entries)
  }

  function Built(interval: int, batches: seq<RecordBatch>, stamp: Stamp): Result<Artifact> {
    if batches == [] then Err(NoBatches)
    else if exists i :: 0 <= i < |batches| && batches[i].data == [] then Err(EmptyPayload)
    else Ok(ArtifactOf(interval, batches, stamp))
  }

  method BuildSegment(interval: int, batches: seq<RecordBatch>, stamp: Stamp) returns (r: Result<Artifact>)
    ensures r == Built(interval, batches, stamp)
  {
    if |batches| == 0 { return Err(NoBatches); }
    var body: bytes := [];
    var index := new IndexBuilder(interval);
    var totalMessages := 0;
    for i := 0 to |batches|
      invariant body == Concat(batches[..i])
      invariant index.View() == IndexOf(interval, batches[..i])
      invariant totalMessages == TotalMessages(batches[..i])
      invariant forall k :: 0 <= k < i ==> batches[k].data != []
      invariant fresh(index)
    {
      var batch := batches[i];
      if |batch.data| == 0 { return Err(EmptyPayload); }
      var position := HEADER_LEN + |body|;
      index.Add(batch.baseOffset, ToInt32(position), batch.messageCount);
      body := body + batch.data;
      totalMessages := ToInt32(totalMessages + batch.messageCount);
      assert batches[..i + 1][..i] == batches[..i];
    }
    assert batches[..|batches|] == batches;
    var lastOffset := batches[|batches| - 1].LastOffset();
    var segment := Header(batches[0].baseOffset, totalMessages, stamp.createdMs) + body
      + Footer(stamp.crc, lastOffset);
    var indexBytes := index.BuildBytes();
    return Ok(Artifact(batches[0].baseOffset, lastOffset, totalMessages, segment, indexBytes, index.entries));
  }

  /** The footer found at the end of a stored segment is the one that was written. */
  lemma SegmentFooter(batches: seq<RecordBatch>, stamp: Stamp)
    requires batches != [] && IsInt64(batches[|batches| - 1].LastOffset())
    ensures var s := SegmentBytes(batches, stamp);
            ParseFooter(s[|s| - FOOTER_LEN..]) == Ok(batches[|batches| - 1].LastOffset())
  {
    var s := SegmentBytes(batches, stamp);
    assert s[|s| - FOOTER_LEN..] == Footer(stamp.crc, batches[|batches| - 1].LastOffset());
    FooterRoundTrip(stamp.crc, batches[|batches| - 1].LastOffset());
  }

  /** What a reader finds in a segment's header: version 1, the first base offset, the message total and
      the time of creation, each in its place. */
  lemma SegmentHeader(batches: seq<RecordBatch>, stamp: Stamp)
    requires batches != [] && IsInt64(batches[0].baseOffset) && IsInt64(stamp.createdMs)
    ensures var s := SegmentBytes(batches, stamp);
            && s[..4] == SEGMENT_MAGIC && DecodeBE(s[4..6]) == 1
            && GetInt64(s[8..16]) == batches[0].baseOffset && GetInt32(s[16..20]) == TotalMessages(batches)
            && GetInt64(s[20..28]) == stamp.createdMs
  {
    hide PutUint16, PutUint32, PutUint64, DecodeBE, GetInt32, GetInt64, Concat, Footer, TotalMessages;
    var s := SegmentBytes(batches, stamp);
    var base, total := batches[0].baseOffset, TotalMessages(batches);
    HeaderFields(base, total, stamp.createdMs);
    var h := Header(base, total, stamp.createdMs);
    hide Header;
    assert s[..32] == h;
    assert s[..4] == h[..4] && s[4..6] == h[4..6] && s[8..16] == h[8..16] && s[16..20] == h[16..20]
           && s[20..28] == h[20..28];
    GetPut16(1);
    GetPut64(base);
    GetPut32(total);
    TotalFits(batches);
    GetPut64(stamp.createdMs);
  }

  lemma HeaderFields(base: int, total: int, createdMs: int)
    ensures var h := Header(base, total, createdMs);
            && h[4..6] == PutUint16(1) && h[8..16] == PutUint64(base) && h[16..20] == PutUint32(total)
            && h[20..28] == PutUint64(createdMs)
  {
    hide PutUint16, PutUint32, PutUint64;
  }

  lemma TotalFits(batches: seq<RecordBatch>)
    ensures ToInt32(TotalMessages(batches)) == TotalMessages(batches)
  {
  }

  /** Entry `e` points at batch `i`: its first offset and its byte position in the segment. */
  predicate PointsAt(e: IndexEntry, batches: seq<RecordBatch>, i: nat)
    requires i < |batches|
  {
    e.offset == batches[i].baseOffset && e.position == HEADER_LEN + |Concat(batches[..i])|
  }

  ghost predicate PointsIn(e: IndexEntry, batches: seq<RecordBatch>) {
    exists i: nat :: i < |batches| && PointsAt(e, batches, i)
  }

  /** A sparse index of `batches`: the first batch is indexed, every entry points at
      the start of a batch, and offsets increase. */
  ghost predicate IndexSound(entries: seq<IndexEntry>, batches: seq<RecordBatch>) {
    && (batches != [] ==> entries != [] && PointsAt(entries[0], batches, 0))
    && (forall k :: 0 <= k < |entries| ==> PointsIn(entries[k], batches))
    && (forall j, k :: 0 <= j < k < |entries| ==> entries[j].offset < entries[k].offset)
  }

  lemma PointsAtExtends(e: IndexEntry, front: seq<RecordBatch>, b: RecordBatch, i: nat)
    requires i < |front| && PointsAt(e, front, i)
    ensures PointsAt(e, front + [b], i)
  {
    assert (front + [b])[..i] == front[..i];
  }

  lemma {:induction false} ConcatPrefixLength(batches: seq<RecordBatch>, i: nat)
    requires i <= |batches|
    ensures |Concat(batches[..i])| <= |Concat(batches)|
  {
    ConcatSplit(batches, i);
  }

  /** One more batch keeps a sound index sound, whether or not it is indexed. */
  lemma SoundExtends(entries: seq<IndexEntry>, front: seq<RecordBatch>, b: RecordBatch)
    requires front != [] && Contiguous(front + [b]) && IndexSound(entries, front)
    ensures IndexSound(entries, front + [b])
    ensures IndexSound(entries + [IndexEntry(b.baseOffset, HEADER_LEN + |Concat(front)|)], front + [b])
  {
    var batches := front + [b];
    var n := |front|;
    forall k | 0 <= k < |entries|
      ensures PointsIn(entries[k], batches) && entries[k].offset < b.baseOffset
    {
      assert PointsIn(entries[k], front);
      var i: nat :| i < |front| && PointsAt(entries[k], front, i);
      PointsAtExtends(entries[k], front, b, i);
      ContiguousOrder(batches, i, n);
    }
    PointsAtExtends(entries[0], front, b, 0);
    assert batches[..n] == front;
    assert PointsAt(IndexEntry(b.baseOffset, HEADER_LEN + |Concat(front)|), batches, n);
  }

  /** Whatever the interval and the (possibly negative or wrapping) message counts,
      the builder produces a sound index of a segment below 2 GiB. */
  lemma {:induction false} IndexOfSound(interval: int, batches: seq<RecordBatch>)
    requires Contiguous(batches) && HEADER_LEN + |Concat(batches)| < TWO31
    ensures IndexSound(IndexOf(interval, batches).entries, batches)
    ensures |IndexOf(interval, batches).entries| <= |batches|
    decreases |batches|, 0
  {
    if batches != [] {
      var n := |batches| - 1;
      var front, b := batches[..n], batches[n];
      assert batches == front + [b];
      IndexOfSoundFront(interval, front, b);
    }
  }

  lemma {:induction false} IndexOfSoundFront(interval: int, front: seq<RecordBatch>, b: RecordBatch)
    requires Contiguous(front + [b]) && HEADER_LEN + |Concat(front + [b])| < TWO31
    ensures IndexSound(IndexOf(interval, front + [b]).entries, front + [b])
    ensures |IndexOf(interval, front + [b]).entries| <= |front| + 1
    decreases |front|, 1
  {
    var batches := front + [b];
    var prev := IndexOf(interval, front);
    var pos := HEADER_LEN + |Concat(front)|;
    assert batches[..|front|] == front;
    ConcatPrefixLength(batches, |front|);
    assert IndexOf(interval, batches) == MaybeAdd(prev, b.baseOffset, pos, b.messageCount);
    hide IndexOf;
    if front == [] {
      assert PointsAt(IndexEntry(b.baseOffset, HEADER_LEN), batches, 0);
    } else {
      assert Contiguous(front);
      IndexOfSound(interval, front);
      hide IndexSound;
      SoundExtends(prev.entries, front, b);
    }
  }
}
