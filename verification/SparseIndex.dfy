/** The sparse offset index of a segment (pkg/storage/index.go). */
module SparseIndex {
  import opened Bytes
  import opened Wrappers

  datatype IndexEntry = IndexEntry(offset: int, position: int)

  /** What an IndexBuilder holds. */
  datatype Builder = Builder(interval: int, sinceLast: int, entries: seq<IndexEntry>)

  const MAGIC: bytes := [0x49, 0x44, 0x58, 0x00]  // "IDX\x00"

  function NewBuilder(interval: int): Builder {
    Builder(if interval <= 0 then 1 else interval, 0, [])
  }

  function MaybeAdd(b: Builder, offset: int, position: int, batchMessages: int): Builder {
    if b.entries == [] || b.sinceLast >= b.interval
    then Builder(b.interval, ToInt32(batchMessages), b.entries + [IndexEntry(offset, position)])
    else Builder(b.interval, ToInt32(b.sinceLast + batchMessages), b.entries)
  }

  function EntryBytes(e: IndexEntry): (s: bytes)
    ensures |s| == 12
  {
    PutUint64(e.offset) + PutUint32(e.position)
  }

  function EntriesBytes(entries: seq<IndexEntry>): (s: bytes)
    ensures |s| == 12 * |entries|
  {
    if entries == [] then []
    else EntriesBytes(entries[..|entries| - 1]) + EntryBytes(entries[|entries| - 1])
  }

  function HeaderBytes(count: int, interval: int): (s: bytes)
    ensures |s| == 16
  {
    MAGIC + PutUint16(1) + PutUint32(count) + PutUint32(interval) + PutUint16(0)
  }

  function IndexBytes(b: Builder): bytes {
    HeaderBytes(|b.entries|, b.interval) + EntriesBytes(b.entries)
  }

  /** Entry number `i` of the entry table that starts at byte 16. */
  function EntryAt(data: bytes, i: nat): IndexEntry
    requires 16 + 12 * (i + 1) <= |data|
  {
    var at := 16 + 12 * i;
    IndexEntry(GetInt64(data[at..at + 8]), GetInt32(data[at + 8..at + 12]))
  }

  /** ParseIndex as one definition: refused, or the `count` entries after the header. A negative
      count is the panic of make. */
  function ParsedIndex(data: bytes): Result<seq<IndexEntry>> {
    if |data| < 16 || data[..4] != MAGIC || DecodeBE(data[4..6]) != 1 then Err(Malformed)
    else
      var count := GetInt32(data[6..10]);
      if count < 0 then Err(Panic)
      else if 16 + 12 * count > |data| then Err(Malformed)
      else Ok(seq(count, i requires 0 <= i < count => EntryAt(data, i)))
  }

  ghost predicate Encodable(entries: seq<IndexEntry>) {
    && |entries| < TWO31
    && forall i :: 0 <= i < |entries| ==> IsInt64(entries[i].offset) && IsInt32(entries[i].position)
  }

  lemma {:induction false} EntriesBytesAt(entries: seq<IndexEntry>, i: nat)
    requires i < |entries|
    ensures EntriesBytes(entries)[12 * i..12 * i + 12] == EntryBytes(entries[i])
  {
    hide EntryBytes;
    var n := |entries| - 1;
    if i < n {
      EntriesBytesAt(entries[..n], i);
      assert EntriesBytes(entries)[12 * i..12 * i + 12] == EntriesBytes(entries[..n])[12 * i..12 * i + 12];
    }
  }

  lemma EntryRoundTrip(data: bytes, i: nat, e: IndexEntry)
    requires 16 + 12 * (i + 1) <= |data|
    requires data[16 + 12 * i..16 + 12 * i + 12] == EntryBytes(e)
    requires IsInt64(e.offset) && IsInt32(e.position)
    ensures EntryAt(data, i) == e
  {
    hide PutUint64, PutUint32, DecodeBE;
    var at := 16 + 12 * i;
    var s := data[at..at + 12];
    assert data[at..at + 8] == s[..8] == PutUint64(e.offset);
    assert data[at + 8..at + 12] == s[8..] == PutUint32(e.position);
    GetPut64(e.offset);
    GetPut32(e.position);
  }

  lemma HeaderRoundTrip(data: bytes, count: int, interval: int)
    requires |data| >= 16 && data[..16] == HeaderBytes(count, interval)
    ensures data[..4] == MAGIC && DecodeBE(data[4..6]) == 1 && GetInt32(data[6..10]) == ToInt32(count)
    ensures GetInt32(data[10..14]) == ToInt32(interval) && DecodeBE(data[14..16]) == 0
  {
    hide GetInt32, DecodeBE;
    HeaderFields(count, interval);
    hide HeaderBytes;
    var h := data[..16];
    assert data[..4] == h[..4] && data[4..6] == h[4..6] && data[6..10] == h[6..10];
    assert data[10..14] == h[10..14] && data[14..16] == h[14..16];
    GetPut16(1);
    GetPut32(count);
    GetPut32(interval);
    GetPut16(0);
  }

  lemma HeaderFields(count: int, interval: int)
    ensures var h := HeaderBytes(count, interval);
            && h[..4] == MAGIC && h[4..6] == PutUint16(1) && h[6..10] == PutUint32(count)
            && h[10..14] == PutUint32(interval) && h[14..16] == PutUint16(0)
  {
    hide PutUint16, PutUint32;
  }

  /** Parsing undoes serialization. */
  lemma IndexRoundTrip(b: Builder)
    requires Encodable(b.entries)
    ensures ParsedIndex(IndexBytes(b)) == Ok(b.entries)
    ensures GetInt32(IndexBytes(b)[10..14]) == ToInt32(b.interval)
  {
    hide EntryBytes, HeaderBytes;
    var data := IndexBytes(b);
    HeaderRoundTrip(data, |b.entries|, b.interval);
    forall i | 0 <= i < |b.entries| ensures EntryAt(data, i) == b.entries[i] {
      EntriesBytesAt(b.entries, i);
      assert data[16 + 12 * i..16 + 12 * i + 12] == EntriesBytes(b.entries)[12 * i..12 * i + 12];
      EntryRoundTrip(data, i, b.entries[i]);
    }
    var count := |b.entries|;
    assert seq(count, i requires 0 <= i < count => EntryAt(data, i)) == b.entries;
  }

  class IndexBuilder {
    const interval: int
    var sinceLast: int
    var entries: seq<IndexEntry>

    ghost function View(): Builder
      reads this
    {
      Builder(interval, sinceLast, entries)
    }

    constructor (interval: int)
      ensures View() == NewBuilder(interval)
    {
      this.interval := if interval <= 0 then 1 else interval;
      sinceLast, entries := 0, [];
    }

    method Add(offset: int, position: int, batchMessages: int)
      modifies this
      ensures View() == MaybeAdd(old(View()), offset, position, batchMessages)
    {
      if |entries| == 0 || sinceLast >= interval {
        entries := entries + [IndexEntry(offset, position)];
        sinceLast := 0;
      }
      sinceLast := ToInt32(sinceLast + batchMessages);
    }

    method BuildBytes() returns (buf: bytes)
      ensures buf == IndexBytes(View())
    {
      hide EntryBytes, HeaderBytes;
      buf := HeaderBytes(|entries|, interval);
      for i := 0 to |entries|
        invariant buf == HeaderBytes(|entries|, interval) + EntriesBytes(entries[..i])
      {
        buf := buf + EntryBytes(entries[i]);
        assert entries[..i + 1][..i] == entries[..i];
      }
      assert entries[..|entries|] == entries;
    }
  }

  /** The sequential reader, entry by entry, stopping at the first short read. */
  method ParseIndex(data: bytes) returns (r: Result<seq<IndexEntry>>)
    ensures r == ParsedIndex(data)
  {
    if |data| < 16 { return Err(Malformed); }
    if data[..4] != MAGIC { return Err(Malformed); }
    var version := DecodeBE(data[4..6]);
    if version != 1 { return Err(Malformed); }
    var count := GetInt32(data[6..10]);
    if count < 0 { return Err(Panic); }
    var entries: seq<IndexEntry> := [];
    var i := 0;
    while i < count
      invariant 0 <= i <= count && |entries| == i && 16 + 12 * i <= |data|
      invariant forall k :: 0 <= k < i ==> entries[k] == EntryAt(data, k)
    {
      if 16 + 12 * (i + 1) > |data| { return Err(Malformed); }
      entries := entries + [EntryAt(data, i)];
      i := i + 1;
    }
    assert entries == seq(count, i requires 0 <= i < count => EntryAt(data, i));
    return Ok(entries);
  }
}
