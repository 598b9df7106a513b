/** Kafka records inside a batch (Apache Kafka documentation, section 5.3.2), and how the two
    processors read them: `wide` is the iceberg decoder with 64-bit varints, otherwise the sql
    decoder with 32-bit ones. */
module Records {
  import opened Bytes
  import opened Wrappers
  import opened Varints

  datatype RecordHeader = RecordHeader(key: bytes, value: Option<bytes>)

  datatype Entry = Entry(attributes: byte, timestampDelta: int, offsetDelta: int,
                         key: Option<bytes>, value: Option<bytes>, headers: seq<RecordHeader>)

  // --------------------------------------------------------------------- encoding

  function EncodeNullable(b: Option<bytes>): bytes {
    if b.None? then EncodeVarint(-1) else EncodeVarint(|b.value|) + b.value
  }

  function EncodeHeaders(hs: seq<RecordHeader>): bytes {
    if hs == [] then []
    else EncodeNullable(Some(hs[0].key)) + (EncodeNullable(hs[0].value) + EncodeHeaders(hs[1..]))
  }

  function EncodeBody(e: Entry): bytes {
    [e.attributes] + (EncodeVarint(e.timestampDelta) + (EncodeVarint(e.offsetDelta)
    + (EncodeNullable(e.key) + (EncodeNullable(e.value) + (EncodeVarint(|e.headers|) + EncodeHeaders(e.headers))))))
  }

  function EncodeEntry(e: Entry): (s: bytes)
    ensures s != []
  {
    EncodeVarint(|EncodeBody(e)|) + EncodeBody(e)
  }

  function EncodeEntries(es: seq<Entry>): bytes {
    if es == [] then [] else EncodeEntry(es[0]) + EncodeEntries(es[1..])
  }

  /** The numbers a reader gives back as they were written. */
  predicate Readable(wide: bool, v: int) {
    if wide then IsInt64(v) else -0x4000_0000 <= v < 0x4000_0000
  }

  predicate NullableReadable(wide: bool, b: Option<bytes>) {
    b.Some? ==> Readable(wide, |b.value|)
  }

  predicate EntryReadable(wide: bool, e: Entry) {
    && Readable(wide, e.timestampDelta) && Readable(wide, e.offsetDelta)
    && NullableReadable(wide, e.key) && NullableReadable(wide, e.value)
    && Readable(wide, |e.headers|)
    && (forall i ::
          0 <= i < |e.headers| ==> Readable(wide, |e.headers[i].key|) && NullableReadable(wide, e.headers[i].value))
    && Readable(wide, |EncodeBody(e)|)
  }

  // --------------------------------------------------------------------- decoding

  function ReadNumber(wide: bool, data: bytes): (r: Result<(int, bytes)>)
    ensures r.Ok? ==> |r.value.1| < |data|
  {
    if wide then Varint64(data) else Varint32(data)
  }

  /** A negative length is a null; otherwise that many bytes must be there. */
  function ReadNullable(wide: bool, data: bytes): (r: Result<(Option<bytes>, bytes)>)
    ensures r.Ok? ==> |r.value.1| < |data|
  {
    var n :- ReadNumber(wide, data);
    if n.0 < 0 then Ok((None, n.1))
    else if n.0 > |n.1| then Err(Malformed)
    else Ok((Some(n.1[..n.0]), n.1[n.0..]))
  }

  /** A null header key reads as the empty string. */
  function KeyOf(b: Option<bytes>): bytes {
    if b.Some? then b.value else []
  }

  function ReadHeaders(wide: bool, n: nat, data: bytes): Result<seq<RecordHeader>>
    decreases n
  {
    if n == 0 then Ok([])
    else
      var k :- ReadNullable(wide, data);
      var v :- ReadNullable(wide, k.1);
      var more :- ReadHeaders(wide, n - 1, v.1);
      Ok([RecordHeader(KeyOf(k.0), v.0)] + more)
  }

  /** A record's key, value and headers. Anything after the headers is ignored; a negative header
      count is passed to make as a capacity. */
  function ReadPayload(wide: bool, data: bytes): Result<(Option<bytes>, Option<bytes>, seq<RecordHeader>)> {
    var key :- ReadNullable(wide, data);
    var value :- ReadNullable(wide, key.1);
    var n :- ReadNumber(wide, value.1);
    if n.0 < 0 then Err(Panic)
    else
      var hs :- ReadHeaders(wide, n.0, n.1);
      Ok((key.0, value.0, hs))
  }

  /** What follows the attributes byte, under `attributes`. */
  function ReadFields(wide: bool, attributes: byte, data: bytes): Result<Entry> {
    var ts :- ReadNumber(wide, data);
    var off :- ReadNumber(wide, ts.1);
    var p :- ReadPayload(wide, off.1);
    Ok(Entry(attributes, ts.0, off.0, p.0, p.1, p.2))
  }

  /** One record's own bytes. */
  function ReadBody(wide: bool, data: bytes): Result<Entry> {
    if data == [] then Err(Malformed) else ReadFields(wide, data[0], data[1..])
  }

  function ReadEntry(wide: bool, data: bytes): (r: Result<(Entry, bytes)>)
    ensures r.Ok? ==> |r.value.1| < |data|
  {
    var n :- ReadNumber(wide, data);
    if n.0 < 0 || n.0 > |n.1| then Err(Malformed)
    else
      var e :- ReadBody(wide, n.1[..n.0]);
      Ok((e, n.1[n.0..]))
  }

  function ReadEntries(wide: bool, n: nat, data: bytes): Result<seq<Entry>>
    decreases n
  {
    if n == 0 then Ok([])
    else
      var e :- ReadEntry(wide, data);
      var more :- ReadEntries(wide, n - 1, e.1);
      Ok([e.0] + more)
  }

  // ------------------------------------------------------------------- round trips

  lemma NumberInverts(wide: bool, v: int, tail: bytes)
    requires Readable(wide, v)
    ensures ReadNumber(wide, EncodeVarint(v) + tail) == Ok((v, tail))
  {
    hide Varint64, Varint32, EncodeVarint;
    if wide { Varint64Inverts(v, tail); } else { Varint32InvertsExactlyWhen(v, tail); }
  }

  lemma NullableInverts(wide: bool, b: Option<bytes>, tail: bytes)
    requires NullableReadable(wide, b)
    ensures ReadNullable(wide, EncodeNullable(b) + tail) == Ok((b, tail))
  {
    hide ReadNumber, EncodeVarint;
    if b.None? {
      NumberInverts(wide, -1, tail);
    } else {
      var n := |b.value|;
      assert EncodeNullable(b) + tail == EncodeVarint(n) + (b.value + tail);
      NumberInverts(wide, n, b.value + tail);
      assert (b.value + tail)[..n] == b.value && (b.value + tail)[n..] == tail;
    }
  }

  lemma {:induction false} HeadersInvert(wide: bool, hs: seq<RecordHeader>, tail: bytes)
    requires forall i :: 0 <= i < |hs| ==> Readable(wide, |hs[i].key|) && NullableReadable(wide, hs[i].value)
    ensures ReadHeaders(wide, |hs|, EncodeHeaders(hs) + tail) == Ok(hs)
  {
    hide ReadNullable, EncodeNullable, Readable;
    if hs == [] {
      assert EncodeHeaders(hs) + tail == tail;
    } else {
      var rest := EncodeHeaders(hs[1..]) + tail;
      var later := EncodeNullable(hs[0].value) + rest;
      assert EncodeHeaders(hs) + tail == EncodeNullable(Some(hs[0].key)) + later;
      NullableInverts(wide, Some(hs[0].key), later);
      NullableInverts(wide, hs[0].value, rest);
      HeadersInvert(wide, hs[1..], tail);
      assert [hs[0]] + hs[1..] == hs;
    }
  }

  lemma BodyInverts(wide: bool, e: Entry)
    requires EntryReadable(wide, e)
    ensures ReadBody(wide, EncodeBody(e)) == Ok(e)
  {
    hide ReadNumber, ReadNullable, ReadHeaders, EncodeVarint, EncodeNullable, EncodeHeaders, Readable;
    var headers := EncodeHeaders(e.headers);
    var count := EncodeVarint(|e.headers|) + headers;
    var value := EncodeNullable(e.value) + count;
    var key := EncodeNullable(e.key) + value;
    var offset := EncodeVarint(e.offsetDelta) + key;
    var body := EncodeBody(e);
    assert body[1..] == EncodeVarint(e.timestampDelta) + offset;
    NumberInverts(wide, e.timestampDelta, offset);
    NumberInverts(wide, e.offsetDelta, key);
    NullableInverts(wide, e.key, value);
    NullableInverts(wide, e.value, count);
    NumberInverts(wide, |e.headers|, headers);
    HeadersInvert(wide, e.headers, []);
    assert headers + [] == headers;
  }

  lemma EntryInverts(wide: bool, e: Entry, tail: bytes)
    requires EntryReadable(wide, e)
    ensures ReadEntry(wide, EncodeEntry(e) + tail) == Ok((e, tail))
  {
    BodyInverts(wide, e);
    hide ReadNumber, ReadBody, EncodeVarint, EncodeBody;
    var body := EncodeBody(e);
    assert EncodeEntry(e) + tail == EncodeVarint(|body|) + (body + tail);
    NumberInverts(wide, |body|, body + tail);
    assert (body + tail)[..|body|] == body && (body + tail)[|body|..] == tail;
  }

  /** Every list of readable records is read back exactly, whatever follows it. */
  lemma {:induction false} EntriesInvert(wide: bool, es: seq<Entry>, tail: bytes)
    requires forall i :: 0 <= i < |es| ==> EntryReadable(wide, es[i])
    ensures ReadEntries(wide, |es|, EncodeEntries(es) + tail) == Ok(es)
  {
    hide ReadEntry, EncodeEntry, EntryReadable;
    if es != [] {
      var rest := EncodeEntries(es[1..]) + tail;
      assert EncodeEntries(es) + tail == EncodeEntry(es[0]) + rest;
      EntryInverts(wide, es[0], rest);
      EntriesInvert(wide, es[1..], tail);
      assert [es[0]] + es[1..] == es;
    }
  }
}
