/** Segments back into records: the decoders of the iceberg and sql processors against the
    segment format of the broker (Apache Kafka documentation, section 5.3.1, for the batches). */
module Decoders {
  import opened Bytes
  import opened Wrappers
  import opened Records
  import opened RecordBatches
  import opened SparseIndex
  import opened Segments

  datatype Record = Record(topic: bytes, partition: int, offset: int, timestamp: int,
                           key: Option<bytes>, value: Option<bytes>, headers: seq<RecordHeader>)

  const FRAME_HEADER_LEN := 12

  function RecordOf(e: Entry, base: int, timestamp: int, topic: bytes, partition: int): Record {
    Record(topic, partition, ToInt64(base + e.offsetDelta), ToInt64(timestamp + e.timestampDelta), e.key, e.value,
           e.headers)
  }

  /** Record `r` is entry `e`, read from a batch at `base` with `timestamp`: key, value and headers are the
      entry's, offset and time are the batch's plus the entry's, as 64-bit numbers. */
  ghost predicate Shows(r: Record, e: Entry, base: int, timestamp: int, topic: bytes, partition: int) {
    && r.topic == topic && r.partition == partition
    && r.key == e.key && r.value == e.value && r.headers == e.headers
    && Int64Of(r.offset, base + e.offsetDelta) && Int64Of(r.timestamp, timestamp + e.timestampDelta)
  }

  /** `v` is the 64-bit number congruent to `x`, which is `x` itself where that fits. */
  ghost predicate Int64Of(v: int, x: int) {
    -0x8000_0000_0000_0000 <= v < 0x8000_0000_0000_0000 && (v - x) % 0x1_0000_0000_0000_0000 == 0
  }

  lemma Int64Fits(v: int, x: int)
    requires Int64Of(v, x) && IsInt64(x)
    ensures v == x
  {
  }

  lemma RecordShows(e: Entry, base: int, timestamp: int, topic: bytes, partition: int)
    ensures Shows(RecordOf(e, base, timestamp, topic, partition), e, base, timestamp, topic, partition)
  {
  }

  function RecordsOf(es: seq<Entry>, base: int, timestamp: int, topic: bytes, partition: int): (r: seq<Record>)
    ensures |r| == |es| && forall i :: 0 <= i < |r| ==> r[i] == RecordOf(es[i], base, timestamp, topic, partition)
  {
    seq(|es|, i requires 0 <= i < |es| => RecordOf(es[i], base, timestamp, topic, partition))
  }

  // --------------------------------------------------------------------- decoding

  function DecodeBatch(wide: bool, batch: bytes, topic: bytes, partition: int): Result<seq<Record>> {
    if |batch| < HEADER_MIN_SIZE then Err(Malformed)
    else if GetInt16(batch[21..23]) % 8 != 0 then Err(Malformed)
    else if GetInt32(batch[57..61]) <= 0 then Ok([])
    else
      var es :- ReadEntries(wide, GetInt32(batch[57..61]), batch[61..]);
      Ok(RecordsOf(es, GetInt64(batch[0..8]), GetInt64(batch[27..35]), topic, partition))
  }

  /** The length of the frame at the front of `data`, if a whole one is there. */
  function FrameLength(data: bytes): (n: Option<nat>)
    ensures n.Some? ==> FRAME_HEADER_LEN < n.value <= |data|
  {
    if |data| < FRAME_HEADER_LEN then None
    else
      var len := DecodeBE(data[8..12]);
      if len == 0 || FRAME_HEADER_LEN + len > |data| then None else Some(FRAME_HEADER_LEN + len)
  }

  /** Frame after frame; what is left at the end and is no frame is passed over. */
  function DecodeBatches(wide: bool, data: bytes, topic: bytes, partition: int): Result<seq<Record>>
    decreases |data|
  {
    match FrameLength(data)
    case None => Ok([])
    case Some(n) =>
      var here :- DecodeBatch(wide, data[..n], topic, partition);
      var more :- DecodeBatches(wide, data[n..], topic, partition);
      Ok(here + more)
  }

  function DecodeSegment(wide: bool, segment: bytes, topic: bytes, partition: int): Result<seq<Record>> {
    if |segment| < HEADER_LEN + FOOTER_LEN then Err(Malformed)
    else if segment[..4] != SEGMENT_MAGIC then Err(Malformed)
    else DecodeBatches(wide, segment[HEADER_LEN..|segment| - FOOTER_LEN], topic, partition)
  }

  // ------------------------------------------------------------------- index objects

  /** parseIndex of the sql processor: the version is not looked at and the count is unsigned. */
  function SqlIndex(data: bytes): Result<seq<IndexEntry>> {
    if |data| < 16 || data[..4] != MAGIC then Err(Malformed)
    else
      var count := DecodeBE(data[6..10]);
      if 16 + 12 * count > |data| then Err(Malformed)
      else Ok(seq(count, i requires 0 <= i < count => EntryAt(data, i)))
  }

  /** parseIndex of either processor; the iceberg one is a copy of the log's ParseIndex. */
  function ProcessorIndex(wide: bool, data: bytes): Result<seq<IndexEntry>> {
    if wide then ParsedIndex(data) else SqlIndex(data)
  }

  /** Where the parsers differ: an index is accepted by the log and the iceberg processor if and only
      if the sql processor accepts it and it is of version 1 with a count that fits 31 bits. The entries
      are then the same. */
  lemma IndexParsersAgree(data: bytes)
    ensures ParsedIndex(data).Ok? <==>
              SqlIndex(data).Ok? && DecodeBE(data[4..6]) == 1 && DecodeBE(data[6..10]) < TWO31
    ensures ParsedIndex(data).Ok? ==> SqlIndex(data) == ParsedIndex(data)
  {
    hide EntryAt;
    if |data| >= 16 {
      assert DecodeBE(data[6..10]) < TWO32 by { Pow256Four(); }
    }
  }

  lemma Pow256Four()
    ensures Pow256(4) == TWO32
  {
  }

  /** Decode of either processor on the index and the segment object, where they exist: the index is
      parsed first, and its entries are not used. */
  function DecodeObjects(wide: bool, index: Option<bytes>, segment: Option<bytes>, topic: bytes,
                         partition: int): Result<seq<Record>> {
    if index.None? then Err(NotFound)
    else
      var _ :- ProcessorIndex(wide, index.value);
      if segment.None? then Err(NotFound) else DecodeSegment(wide, segment.value, topic, partition)
  }

  // ------------------------------------------------------------- one-frame batches

  /** What a producer put into a batch. */
  datatype Content = Content(timestamp: int, entries: seq<Entry>)

  ghost predicate AllReadable(wide: bool, es: seq<Entry>) {
    forall i :: 0 <= i < |es| ==> EntryReadable(wide, es[i])
  }

  /** `data` is one uncompressed batch holding `c`. */
  ghost predicate IsFrame(data: bytes, c: Content) {
    && |data| >= HEADER_MIN_SIZE
    && DecodeBE(data[8..12]) == |data| - FRAME_HEADER_LEN
    && GetInt16(data[21..23]) % 8 == 0
    && GetInt64(data[27..35]) == c.timestamp
    && GetInt32(data[57..61]) == |c.entries|
    && data[61..] == EncodeEntries(c.entries)
  }

  /** Offset deltas go up and stay within the batch. */
  ghost predicate DeltasFit(es: seq<Entry>, lastOffsetDelta: int) {
    && (forall i :: 0 <= i < |es| ==> 0 <= es[i].offsetDelta <= lastOffsetDelta)
    && (forall i, j :: 0 <= i < j < |es| ==> es[i].offsetDelta < es[j].offsetDelta)
  }

  /** The batch as the log keeps it, and its content. */
  ghost predicate Frames(wide: bool, b: RecordBatch, c: Content) {
    && NewRecordBatchFromBytes(b.data) == Ok(b)
    && IsFrame(b.data, c) && AllReadable(wide, c.entries) && DeltasFit(c.entries, b.lastOffsetDelta)
  }

  lemma BatchDecodes(wide: bool, data: bytes, c: Content, topic: bytes, partition: int)
    requires IsFrame(data, c) && AllReadable(wide, c.entries)
    ensures DecodeBatch(wide, data, topic, partition)
         == Ok(RecordsOf(c.entries, GetInt64(data[0..8]), c.timestamp, topic, partition))
  {
    hide ReadEntries, EncodeEntries, EntryReadable, DecodeBE, RecordOf;
    EntriesInvert(wide, c.entries, []);
    assert EncodeEntries(c.entries) + [] == EncodeEntries(c.entries);
    if c.entries == [] {
      assert RecordsOf(c.entries, GetInt64(data[0..8]), c.timestamp, topic, partition) == [];
    }
  }

  /** A batch holds one content. */
  lemma ContentUnique(wide: bool, data: bytes, c: Content, d: Content)
    requires IsFrame(data, c) && AllReadable(wide, c.entries)
    requires IsFrame(data, d) && AllReadable(wide, d.entries)
    ensures c == d
  {
    hide ReadEntries, EncodeEntries, EntryReadable, DecodeBE;
    EntriesInvert(wide, c.entries, []);
    EntriesInvert(wide, d.entries, []);
    assert EncodeEntries(c.entries) + [] == EncodeEntries(c.entries);
    assert EncodeEntries(d.entries) + [] == EncodeEntries(d.entries);
  }

  /** Numbering a batch does not touch its content. */
  lemma PatchedFrames(wide: bool, b: RecordBatch, c: Content, base: int)
    requires Frames(wide, b, c) && IsInt64(base)
    ensures Frames(wide, Patched(b, base), c)
  {
    hide EncodeEntries, EntryReadable, DecodeBE, PutUint64, AllReadable, DeltasFit;
    PatchedReparses(b.data, base);
    var d := PutUint64(base) + b.data[8..];
    assert d[8..12] == b.data[8..12] && d[21..23] == b.data[21..23] && d[27..35] == b.data[27..35];
    assert d[57..61] == b.data[57..61] && d[61..] == b.data[61..];
  }

  /** The header fields a producer fills in besides length, deltas and count. */
  datatype Meta = Meta(epoch: int, magic: byte, crc: int, attributes: int, lastOffsetDelta: int, baseTimestamp: int,
                       maxTimestamp: int, producerId: int, producerEpoch: int, baseSequence: int)

  function EncodeBatch(base: int, m: Meta, es: seq<Entry>): bytes {
    PutUint64(base) + PutUint32(HEADER_MIN_SIZE - FRAME_HEADER_LEN + |EncodeEntries(es)|) + PutUint32(m.epoch)
    + [m.magic] + PutUint32(m.crc) + PutUint16(m.attributes) + PutUint32(m.lastOffsetDelta) + PutUint64(m.baseTimestamp)
    + PutUint64(m.maxTimestamp) + PutUint64(m.producerId) + PutUint16(m.producerEpoch) + PutUint32(m.baseSequence)
    + PutUint32(|es|) + EncodeEntries(es)
  }

  /** Encoding a batch as the Kafka documentation has it gives a frame of its content. */
  lemma EncodedFrames(wide: bool, base: int, m: Meta, es: seq<Entry>)
    requires IsInt64(base) && IsInt64(m.baseTimestamp) && IsInt32(m.lastOffsetDelta) && m.attributes % 8 == 0
    requires |es| < TWO31 && HEADER_MIN_SIZE - FRAME_HEADER_LEN + |EncodeEntries(es)| < TWO32
    requires AllReadable(wide, es) && DeltasFit(es, m.lastOffsetDelta)
    ensures var data := EncodeBatch(base, m, es);
            Frames(wide, RecordBatch(base, m.lastOffsetDelta, |es|, data), Content(m.baseTimestamp, es))
  {
    hide EncodeEntries, EntryReadable, DecodeBE, PutUint64, PutUint32, PutUint16, AllReadable, DeltasFit, EncodeBatch,
         GetInt16, GetInt32, GetInt64;
    EncodedFields(base, m, es);
    GetPut64(base);
    GetPut32(HEADER_MIN_SIZE - FRAME_HEADER_LEN + |EncodeEntries(es)|);
    GetPut16(m.attributes);
    LowBits(m.attributes);
    GetPut32(m.lastOffsetDelta);
    GetPut64(m.baseTimestamp);
    GetPut32(|es|);
  }

  lemma LowBits(v: int)
    ensures ToInt16(v) % 8 == v % 8
  {
  }

  lemma EncodedFields(base: int, m: Meta, es: seq<Entry>)
    ensures var data := EncodeBatch(base, m, es);
            && |data| == HEADER_MIN_SIZE + |EncodeEntries(es)|
            && data[0..8] == PutUint64(base)
            && data[8..12] == PutUint32(HEADER_MIN_SIZE - FRAME_HEADER_LEN + |EncodeEntries(es)|)
            && data[21..23] == PutUint16(m.attributes)
            && data[23..27] == PutUint32(m.lastOffsetDelta)
            && data[27..35] == PutUint64(m.baseTimestamp)
            && data[57..61] == PutUint32(|es|)
            && data[61..] == EncodeEntries(es)
  {
    hide EncodeEntries, PutUint64, PutUint32, PutUint16;
  }

  // ------------------------------------------------------------------ whole segments

  ghost predicate AllFrame(wide: bool, batches: seq<RecordBatch>, cs: seq<Content>) {
    |cs| == |batches| && forall i :: 0 <= i < |batches| ==> Frames(wide, batches[i], cs[i])
  }

  /** The records of the batches, in order. */
  function AllRecords(batches: seq<RecordBatch>, cs: seq<Content>, topic: bytes, partition: int): seq<Record>
    requires |cs| == |batches|
  {
    if batches == [] then []
    else RecordsOf(cs[0].entries, batches[0].baseOffset, cs[0].timestamp, topic, partition)
         + AllRecords(batches[1..], cs[1..], topic, partition)
  }

  lemma FrameSplits(wide: bool, b: RecordBatch, c: Content, rest: bytes)
    requires Frames(wide, b, c)
    ensures FrameLength(b.data + rest) == Some(|b.data|)
    ensures (b.data + rest)[..|b.data|] == b.data && (b.data + rest)[|b.data|..] == rest
  {
    hide EncodeEntries, DecodeBE, AllReadable, DeltasFit;
    assert (b.data + rest)[8..12] == b.data[8..12];
  }

  lemma {:induction false} BatchesDecode(wide: bool, batches: seq<RecordBatch>, cs: seq<Content>, topic: bytes,
                                         partition: int)
    requires AllFrame(wide, batches, cs)
    ensures DecodeBatches(wide, Concat(batches), topic, partition) == Ok(AllRecords(batches, cs, topic, partition))
  {
    hide Concat, DecodeBatch, FrameLength, RecordsOf, Frames;
    if batches == [] {
      NoFrame();
    } else {
      var b, c := batches[0], cs[0];
      BatchesDecode(wide, batches[1..], cs[1..], topic, partition);
      ConcatSplit(batches, 1);
      assert batches[..1] == [b];
      ConcatOne(b);
      FrameSplits(wide, b, c, Concat(batches[1..]));
      FrameDecodes(wide, b, c, topic, partition);
    }
  }

  /** Good frames in front do not change what becomes of the rest: its records follow, or its error. */
  lemma {:induction false} BatchesDecodeOn(wide: bool, batches: seq<RecordBatch>, cs: seq<Content>, rest: bytes,
                                           topic: bytes, partition: int)
    requires AllFrame(wide, batches, cs)
    ensures DecodeBatches(wide, Concat(batches) + rest, topic, partition)
         == match DecodeBatches(wide, rest, topic, partition)
            case Err(e) => Err(e)
            case Ok(more) => Ok(AllRecords(batches, cs, topic, partition) + more)
  {
    hide Concat, DecodeBatch, FrameLength, RecordsOf, Frames;
    if batches == [] {
      NoFrame();
      assert [] + rest == rest;
      var d := DecodeBatches(wide, rest, topic, partition);
      if d.Ok? { assert [] + d.value == d.value; }
    } else {
      var b, c := batches[0], cs[0];
      BatchesDecodeOn(wide, batches[1..], cs[1..], rest, topic, partition);
      ConcatSplit(batches, 1);
      assert batches[..1] == [b];
      ConcatOne(b);
      assert Concat(batches) + rest == b.data + (Concat(batches[1..]) + rest);
      FrameSplits(wide, b, c, Concat(batches[1..]) + rest);
      FrameDecodes(wide, b, c, topic, partition);
      var d := DecodeBatches(wide, rest, topic, partition);
      if d.Ok? {
        var first := RecordsOf(c.entries, b.baseOffset, c.timestamp, topic, partition);
        assert first + (AllRecords(batches[1..], cs[1..], topic, partition) + d.value)
            == (first + AllRecords(batches[1..], cs[1..], topic, partition)) + d.value;
      }
    }
  }

  /** A compressed batch anywhere behind good ones makes the whole segment undecodable, whatever follows. */
  lemma CompressedRefused(wide: bool, batches: seq<RecordBatch>, cs: seq<Content>, compressed: bytes, rest: bytes,
                          topic: bytes, partition: int)
    requires AllFrame(wide, batches, cs)
    requires |compressed| >= HEADER_MIN_SIZE && DecodeBE(compressed[8..12]) == |compressed| - FRAME_HEADER_LEN
    requires GetInt16(compressed[21..23]) % 8 != 0
    ensures DecodeBatches(wide, Concat(batches) + (compressed + rest), topic, partition) == Err(Malformed)
  {
    hide Concat, AllFrame, DecodeBE;
    BatchesDecodeOn(wide, batches, cs, compressed + rest, topic, partition);
    assert (compressed + rest)[8..12] == compressed[8..12];
    assert (compressed + rest)[..|compressed|] == compressed;
  }

  /** What is no segment is refused. */
  lemma SegmentRefused(wide: bool, segment: bytes, topic: bytes, partition: int)
    ensures DecodeSegment(wide, segment, topic, partition).Ok? ==>
              |segment| >= 48 && segment[..4] == [0x4B, 0x41, 0x46, 0x53]
  {
    hide DecodeBatches;
  }

  lemma NoFrame()
    ensures Concat([]) == [] && FrameLength([]).None?
  {
  }

  lemma FrameDecodes(wide: bool, b: RecordBatch, c: Content, topic: bytes, partition: int)
    requires Frames(wide, b, c)
    ensures DecodeBatch(wide, b.data, topic, partition)
            == Ok(RecordsOf(c.entries, b.baseOffset, c.timestamp, topic, partition))
  {
    hide DecodeBatch, RecordsOf, AllReadable, DeltasFit;
    BatchDecodes(wide, b.data, c, topic, partition);
  }

  /** Decoding the segment the log built gives back what was put into its batches, in order. */
  lemma SegmentDecodes(wide: bool, batches: seq<RecordBatch>, cs: seq<Content>, stamp: Stamp, topic: bytes,
                       partition: int)
    requires batches != [] && AllFrame(wide, batches, cs)
    ensures DecodeSegment(wide, SegmentBytes(batches, stamp), topic, partition)
            == Ok(AllRecords(batches, cs, topic, partition))
  {
    hide Frames, Concat, DecodeBatches, AllRecords, Header, Footer, TotalMessages;
    BatchesDecode(wide, batches, cs, topic, partition);
    var s := SegmentBytes(batches, stamp);
    var h := Header(batches[0].baseOffset, TotalMessages(batches), stamp.createdMs);
    assert s[..4] == h[..4];
    assert s[HEADER_LEN..|s| - FOOTER_LEN] == Concat(batches);
  }

  // --------------------------------------------------------------------- offsets

  predicate Increasing(rs: seq<Record>) {
    forall i, j :: 0 <= i < j < |rs| ==> rs[i].offset < rs[j].offset
  }

  predicate Within(rs: seq<Record>, low: int, high: int) {
    forall i :: 0 <= i < |rs| ==> low <= rs[i].offset <= high
  }

  lemma BatchOffsets(wide: bool, b: RecordBatch, c: Content, topic: bytes, partition: int)
    requires Frames(wide, b, c) && 0 <= b.baseOffset && b.LastOffset() < TWO63
    ensures var rs := RecordsOf(c.entries, b.baseOffset, c.timestamp, topic, partition);
            Increasing(rs) && Within(rs, b.baseOffset, b.LastOffset())
  {
    hide IsFrame, AllReadable;
  }

  lemma AppendedOffsets(a: seq<Record>, b: seq<Record>, low: int, mid: int, high: int)
    requires Increasing(a) && Increasing(b) && Within(a, low, mid - 1) && Within(b, mid, high) && low <= mid <= high + 1
    ensures Increasing(a + b) && Within(a + b, low, high)
  {
  }

  /** A contiguous run of batches decodes to strictly increasing offsets within its range. */
  lemma {:induction false} RunOffsets(wide: bool, batches: seq<RecordBatch>, cs: seq<Content>, topic: bytes,
                                      partition: int)
    requires AllFrame(wide, batches, cs) && Contiguous(batches) && batches != []
    requires 0 <= batches[0].baseOffset && batches[|batches| - 1].LastOffset() < TWO63
    ensures var rs := AllRecords(batches, cs, topic, partition);
            Increasing(rs) && Within(rs, batches[0].baseOffset, batches[|batches| - 1].LastOffset())
  {
    hide Frames, RecordsOf, Increasing, Within;
    var b, c := batches[0], cs[0];
    var first := RecordsOf(c.entries, b.baseOffset, c.timestamp, topic, partition);
    var last := batches[|batches| - 1].LastOffset();
    ContiguousOrder(batches, 0, |batches| - 1);
    if |batches| == 1 {
      BatchOffsets(wide, b, c, topic, partition);
      assert AllRecords(batches[1..], cs[1..], topic, partition) == [];
      assert first + [] == first;
    } else {
      ContiguousOrder(batches, 1, |batches| - 1);
      BatchOffsets(wide, b, c, topic, partition);
      RunOffsets(wide, batches[1..], cs[1..], topic, partition);
      AppendedOffsets(first, AllRecords(batches[1..], cs[1..], topic, partition), b.baseOffset, batches[1].baseOffset,
                      last);
    }
  }
}
