/** The decoders' loops over a reader, each proved to compute the definition it walks through. */
module DecoderLoops {
  import opened Bytes
  import opened Wrappers
  import opened Varints
  import opened Readers
  import opened Records
  import opened RecordBatches
  import opened SparseIndex
  import opened Segments
  import opened Decoders

  method ReadVarint(wide: bool, reader: Reader) returns (r: Result<int>)
    requires reader.Valid()
    modifies reader
    ensures reader.Valid()
    ensures match ReadNumber(wide, old(reader.Rest()))
            case Ok((v, rest)) => r == Ok(v) && reader.Rest() == rest
            case Err(e) => r == Err(e)
  {
    hide Varint64, Varint32;
    if wide { r := ReadVarint64(reader); } else { r := ReadVarint32(reader); }
  }

  /** A length and that many bytes; a negative length is a null. */
  method ReadNullableBytes(wide: bool, reader: Reader) returns (r: Result<Option<bytes>>)
    requires reader.Valid()
    modifies reader
    ensures reader.Valid()
    ensures match ReadNullable(wide, old(reader.Rest()))
            case Ok((b, rest)) => r == Ok(b) && reader.Rest() == rest
            case Err(e) => r == Err(e)
  {
    hide ReadNumber;
    var length := ReadVarint(wide, reader);
    if length.Err? { return Err(length.error); }
    if length.value < 0 { return Ok(None); }
    var out := reader.ReadFull(length.value);
    if out.Err? { return Err(out.error); }
    return Ok(Some(out.value));
  }

  /** Where a loop that collects `whole` stands: `done` is collected, `rest` is still to come. */
  predicate Continues<T(==)>(whole: Result<seq<T>>, done: seq<T>, rest: Result<seq<T>>) {
    if rest.Ok? then whole == Ok(done + rest.value) else whole == rest
  }

  lemma Continued<T>(whole: Result<seq<T>>, done: seq<T>, rest: Result<seq<T>>, here: seq<T>, more: Result<seq<T>>)
    requires Continues(whole, done, rest)
    requires rest == if more.Ok? then Ok(here + more.value) else more
    ensures Continues(whole, done + here, more)
  {
    if more.Ok? { assert done + (here + more.value) == (done + here) + more.value; }
  }

  lemma Starts<T>(whole: Result<seq<T>>)
    ensures Continues(whole, [], whole)
  {
    if whole.Ok? { assert [] + whole.value == whole.value; }
  }

  lemma Ends<T>(whole: Result<seq<T>>, done: seq<T>, rest: Result<seq<T>>)
    requires Continues(whole, done, rest) && (rest == Ok([]) || rest.Err?)
    ensures whole == if rest.Ok? then Ok(done) else rest
  {
    assert done + [] == done;
  }

  method ReadHeaderList(wide: bool, n: nat, reader: Reader) returns (r: Result<seq<RecordHeader>>)
    requires reader.Valid()
    modifies reader
    ensures reader.Valid()
    ensures r == ReadHeaders(wide, n, old(reader.Rest()))
  {
    hide ReadNullable, Continues;
    var headers: seq<RecordHeader> := [];
    ghost var whole := ReadHeaders(wide, n, reader.Rest());
    Starts(whole);
    for i := 0 to n
      invariant reader.Valid()
      invariant Continues(whole, headers, ReadHeaders(wide, n - i, reader.Rest()))
    {
      ghost var rest := ReadHeaders(wide, n - i, reader.Rest());
      var key := ReadNullableBytes(wide, reader);
      if key.Err? { Ends(whole, headers, rest); return Err(key.error); }
      var value := ReadNullableBytes(wide, reader);
      if value.Err? { Ends(whole, headers, rest); return Err(value.error); }
      var here := [RecordHeader(KeyOf(key.value), value.value)];
      Continued(whole, headers, rest, here, ReadHeaders(wide, n - i - 1, reader.Rest()));
      headers := headers + here;
    }
    Ends(whole, headers, Ok([]));
    return Ok(headers);
  }

  method ReadPayloadFrom(wide: bool, buf: Reader) returns (r: Result<(Option<bytes>, Option<bytes>, seq<RecordHeader>)>)
    requires buf.Valid()
    modifies buf
    ensures r == ReadPayload(wide, old(buf.Rest()))
  {
    hide ReadNumber, ReadNullable, ReadHeaders;
    var key := ReadNullableBytes(wide, buf);
    if key.Err? { return Err(key.error); }
    var value := ReadNullableBytes(wide, buf);
    if value.Err? { return Err(value.error); }
    var headerCount := ReadVarint(wide, buf);
    if headerCount.Err? { return Err(headerCount.error); }
    if headerCount.value < 0 { return Err(Panic); }
    var headers := ReadHeaderList(wide, headerCount.value, buf);
    if headers.Err? { return Err(headers.error); }
    return Ok((key.value, value.value, headers.value));
  }

  method DecodeRecordFields(wide: bool, attributes: byte, buf: Reader) returns (r: Result<Entry>)
    requires buf.Valid()
    modifies buf
    ensures r == ReadFields(wide, attributes, old(buf.Rest()))
  {
    hide ReadNumber, ReadPayload;
    var timestampDelta := ReadVarint(wide, buf);
    if timestampDelta.Err? { return Err(timestampDelta.error); }
    var offsetDelta := ReadVarint(wide, buf);
    if offsetDelta.Err? { return Err(offsetDelta.error); }
    var payload := ReadPayloadFrom(wide, buf);
    if payload.Err? { return Err(payload.error); }
    var (key, value, headers) := payload.value;
    return Ok(Entry(attributes, timestampDelta.value, offsetDelta.value, key, value, headers));
  }

  method DecodeRecordBody(wide: bool, recordData: bytes) returns (r: Result<Entry>)
    ensures r == ReadBody(wide, recordData)
  {
    hide ReadFields;
    var buf := new Reader(recordData);
    var attributes := buf.ReadByte();
    if attributes.None? { return Err(Malformed); }
    r := DecodeRecordFields(wide, attributes.value, buf);
  }

  method DecodeRecord(wide: bool, reader: Reader) returns (r: Result<Entry>)
    requires reader.Valid()
    modifies reader
    ensures reader.Valid()
    ensures match ReadEntry(wide, old(reader.Rest()))
            case Ok((e, rest)) => r == Ok(e) && reader.Rest() == rest
            case Err(e) => r == Err(e)
  {
    hide ReadNumber, ReadBody;
    var length := ReadVarint(wide, reader);
    if length.Err? { return Err(length.error); }
    if length.value < 0 { return Err(Malformed); }
    var recordData := reader.ReadFull(length.value);
    if recordData.Err? { return Err(recordData.error); }
    r := DecodeRecordBody(wide, recordData.value);
  }

  method DecodeBatchRecords(wide: bool, batch: bytes, topic: bytes, partition: int) returns (r: Result<seq<Record>>)
    ensures r == DecodeBatch(wide, batch, topic, partition)
  {
    hide ReadEntries, RecordOf, RecordsOf, DecodeBE;
    if |batch| < HEADER_MIN_SIZE { return Err(Malformed); }
    if GetInt16(batch[21..23]) % 8 != 0 { return Err(Malformed); }
    var baseOffset := GetInt64(batch[0..8]);
    var firstTimestamp := GetInt64(batch[27..35]);
    var recordCount := GetInt32(batch[57..61]);
    if recordCount <= 0 { return Ok([]); }
    r := DecodeRecords(wide, recordCount, batch[61..], baseOffset, firstTimestamp, topic, partition);
  }

  lemma RecordsSnoc(es: seq<Entry>, e: Entry, base: int, timestamp: int, topic: bytes, partition: int)
    ensures RecordsOf(es + [e], base, timestamp, topic, partition)
         == RecordsOf(es, base, timestamp, topic, partition) + [RecordOf(e, base, timestamp, topic, partition)]
  {
  }

  lemma RecordsNone(base: int, timestamp: int, topic: bytes, partition: int)
    ensures RecordsOf([], base, timestamp, topic, partition) == []
  {
  }

  lemma EntriesNext(wide: bool, n: nat, data: bytes)
    requires n > 0
    ensures match ReadEntry(wide, data)
            case Err(e) => ReadEntries(wide, n, data) == Err(e)
            case Ok((e, rest)) =>
              var more := ReadEntries(wide, n - 1, rest);
              ReadEntries(wide, n, data) == if more.Ok? then Ok([e] + more.value) else more
  {
    hide ReadEntry;
  }

  lemma EntriesNone(wide: bool, data: bytes)
    ensures ReadEntries(wide, 0, data) == Ok([])
  {
  }

  /** `n` records, each numbered and stamped as it is read. */
  method DecodeRecords(wide: bool, n: nat, data: bytes, base: int, timestamp: int, topic: bytes, partition: int)
      returns (r: Result<seq<Record>>)
    ensures match ReadEntries(wide, n, data)
            case Ok(es) => r == Ok(RecordsOf(es, base, timestamp, topic, partition))
            case Err(e) => r == Err(e)
  {
    hide ReadEntry, ReadEntries, RecordOf, RecordsOf, Continues;
    var reader := new Reader(data);
    var records: seq<Record> := [];
    ghost var es: seq<Entry> := [];
    RecordsNone(base, timestamp, topic, partition);
    ghost var whole := ReadEntries(wide, n, data);
    Starts(whole);
    for i := 0 to n
      invariant reader.Valid() && fresh(reader) && records == RecordsOf(es, base, timestamp, topic, partition)
      invariant Continues(whole, es, ReadEntries(wide, n - i, reader.Rest()))
    {
      ghost var rest := ReadEntries(wide, n - i, reader.Rest());
      EntriesNext(wide, n - i, reader.Rest());
      var e := DecodeRecord(wide, reader);
      if e.Err? { Ends(whole, es, rest); return Err(e.error); }
      Continued(whole, es, rest, [e.value], ReadEntries(wide, n - i - 1, reader.Rest()));
      RecordsSnoc(es, e.value, base, timestamp, topic, partition);
      records := records + [RecordOf(e.value, base, timestamp, topic, partition)];
      es := es + [e.value];
    }
    EntriesNone(wide, reader.Rest());
    Ends(whole, es, Ok([]));
    return Ok(records);
  }

  method DecodeRecordBatches(wide: bool, data: bytes, topic: bytes, partition: int) returns (r: Result<seq<Record>>)
    ensures r == DecodeBatches(wide, data, topic, partition)
  {
    hide DecodeBatch, FrameLength, Continues;
    var records: seq<Record> := [];
    var offset := 0;
    ghost var whole := DecodeBatches(wide, data, topic, partition);
    Starts(whole);
    assert data[0..] == data;
    while offset + FRAME_HEADER_LEN <= |data|
      invariant 0 <= offset <= |data|
      invariant Continues(whole, records, DecodeBatches(wide, data[offset..], topic, partition))
    {
      ghost var rest := DecodeBatches(wide, data[offset..], topic, partition);
      FrameAt(data, offset);
      var batchLen := DecodeBE(data[offset + 8..offset + 12]);
      if batchLen <= 0 { break; }
      var frameLen := FRAME_HEADER_LEN + batchLen;
      if offset + frameLen > |data| { break; }
      var batch := DecodeBatchRecords(wide, data[offset..offset + frameLen], topic, partition);
      if batch.Err? { Ends(whole, records, rest); return Err(batch.error); }
      assert data[offset..][frameLen..] == data[offset + frameLen..];
      Continued(whole, records, rest, batch.value, DecodeBatches(wide, data[offset + frameLen..], topic, partition));
      records := records + batch.value;
      offset := offset + frameLen;
    }
    FrameAt(data, offset);
    Ends(whole, records, Ok([]));
    return Ok(records);
  }

  /** The frame at an offset, read in place. */
  lemma FrameAt(data: bytes, offset: nat)
    requires offset <= |data|
    ensures offset + FRAME_HEADER_LEN > |data| ==> FrameLength(data[offset..]).None?
    ensures offset + FRAME_HEADER_LEN <= |data| ==>
              var len := DecodeBE(data[offset + 8..offset + 12]);
              FrameLength(data[offset..])
              == if len == 0 || offset + FRAME_HEADER_LEN + len > |data| then None else Some(FRAME_HEADER_LEN + len)
    ensures forall n :: 0 <= n <= |data| - offset ==> data[offset..][..n] == data[offset..offset + n]
  {
    if offset + FRAME_HEADER_LEN <= |data| {
      assert data[offset..][8..12] == data[offset + 8..offset + 12];
    }
  }

  method DecodeSegmentRecords(wide: bool, segment: bytes, topic: bytes, partition: int) returns (r: Result<seq<Record>>)
    ensures r == DecodeSegment(wide, segment, topic, partition)
  {
    hide DecodeBatches;
    if |segment| < HEADER_LEN + FOOTER_LEN { return Err(Malformed); }
    if segment[..4] != SEGMENT_MAGIC { return Err(Malformed); }
    r := DecodeRecordBatches(wide, segment[HEADER_LEN..|segment| - FOOTER_LEN], topic, partition);
  }

  // ------------------------------------------------------------------- index and segment

  /** parseIndex of the sql processor, entry by entry. */
  method ParseSqlIndex(data: bytes) returns (r: Result<seq<IndexEntry>>)
    ensures r == SqlIndex(data)
  {
    if |data| < 16 { return Err(Malformed); }
    if data[..4] != MAGIC { return Err(Malformed); }
    var entryCount := DecodeBE(data[6..10]);
    var entries: seq<IndexEntry> := [];
    var offset := 16;
    for i := 0 to entryCount
      invariant |entries| == i && offset == 16 + 12 * i <= |data|
      invariant forall k :: 0 <= k < i ==> entries[k] == EntryAt(data, k)
    {
      if offset + 12 > |data| { return Err(Malformed); }
      entries := entries + [EntryAt(data, i)];
      offset := offset + 12;
    }
    assert entries == seq(entryCount, i requires 0 <= i < entryCount => EntryAt(data, i));
    return Ok(entries);
  }

  method Decode(wide: bool, index: Option<bytes>, segment: Option<bytes>, topic: bytes, partition: int)
    returns (r: Result<seq<Record>>)
    ensures r == DecodeObjects(wide, index, segment, topic, partition)
  {
    hide ParsedIndex, SqlIndex, DecodeSegment;
    if index.None? { return Err(NotFound); }
    var parsed: Result<seq<IndexEntry>>;
    if wide { parsed := ParseIndex(index.value); } else { parsed := ParseSqlIndex(index.value); }
    if parsed.Err? { return Err(parsed.error); }
    if segment.None? { return Err(NotFound); }
    r := DecodeSegmentRecords(wide, segment.value, topic, partition);
  }
}
