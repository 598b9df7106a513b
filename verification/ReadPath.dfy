/** Serving a read from one segment: the index search, the byte range it selects,
    and the three ways of getting those bytes (pkg/storage/log.go). */
module ReadPath {
  import opened Bytes
  import opened Wrappers
  import opened RecordBatches
  import opened SparseIndex
  import opened Segments
  import opened ObjectStore

  datatype SegmentRange = SegmentRange(baseOffset: int, lastOffset: int, size: int)

  // ------------------------------------------------------------ the index search

  ghost predicate Sorted(entries: seq<IndexEntry>) {
    forall j, k :: 0 <= j < k < |entries| ==> entries[j].offset < entries[k].offset
  }

  /** The search loop between `lo` and `hi`. */
  function Search(entries: seq<IndexEntry>, offset: int, lo: int, hi: int): IndexEntry
    requires entries != [] && 0 <= lo && hi < |entries|
    decreases hi - lo + 1
  {
    if lo > hi then entries[0]
    else
      var mid := (lo + hi) / 2;
      if entries[mid].offset == offset then entries[mid]
      else if entries[mid].offset < offset then
        if mid + 1 <= hi && entries[mid + 1].offset > offset then entries[mid]
        else Search(entries, offset, mid + 1, hi)
      else Search(entries, offset, lo, mid - 1)
  }

  /** Whatever the entries, the search returns one of them and never one past the target. */
  lemma {:induction false} SearchNeverPast(entries: seq<IndexEntry>, offset: int, lo: int, hi: int)
    requires entries != [] && 0 <= lo && hi < |entries| && entries[0].offset <= offset
    ensures Search(entries, offset, lo, hi) in entries
    ensures Search(entries, offset, lo, hi).offset <= offset
    decreases hi - lo + 1
  {
    if lo <= hi {
      var mid := (lo + hi) / 2;
      if entries[mid].offset < offset {
        SearchNeverPast(entries, offset, mid + 1, hi);
      } else if entries[mid].offset > offset {
        SearchNeverPast(entries, offset, lo, mid - 1);
      }
    }
  }

  function Found(entries: seq<IndexEntry>, offset: int): (e: IndexEntry)
    ensures entries != [] ==> e in entries
    ensures entries != [] && entries[0].offset <= offset ==> e.offset <= offset
  {
    if entries == [] then IndexEntry(0, 0)
    else if offset <= entries[0].offset then entries[0]
    else if offset >= entries[|entries| - 1].offset then entries[|entries| - 1]
    else SearchNeverPast(entries, offset, 0, |entries| - 1); Search(entries, offset, 0, |entries| - 1)
  }

  method FindIndexEntry(entries: seq<IndexEntry>, offset: int) returns (e: IndexEntry)
    ensures e == Found(entries, offset)
  {
    if |entries| == 0 { return IndexEntry(0, 0); }
    var lo, hi := 0, |entries| - 1;
    if offset <= entries[0].offset { return entries[0]; }
    if offset >= entries[hi].offset { return entries[hi]; }
    while lo <= hi
      invariant 0 <= lo && hi < |entries|
      invariant Search(entries, offset, lo, hi) == Found(entries, offset)
      decreases hi - lo + 1
    {
      var mid := (lo + hi) / 2;
      if entries[mid].offset == offset { return entries[mid]; }
      if entries[mid].offset < offset {
        if mid + 1 <= hi && entries[mid + 1].offset > offset { return entries[mid]; }
        lo := mid + 1;
      } else {
        hi := mid - 1;
      }
    }
    return entries[0];
  }

  /** `f` is the position of the greatest entry at or below `offset`. */
  predicate IsFloor(entries: seq<IndexEntry>, offset: int, f: int) {
    && 0 <= f < |entries|
    && entries[f].offset <= offset
    && (f + 1 < |entries| ==> offset < entries[f + 1].offset)
  }

  /** Halving [lo, hi] probes position `f` before `f + 1`. It depends on positions only. */
  predicate ProbedFirst(lo: int, hi: int, f: int)
    decreases hi - lo + 1
  {
    if lo > hi then false
    else
      var mid := (lo + hi) / 2;
      if mid == f then mid + 1 <= hi
      else if mid < f then ProbedFirst(mid + 1, hi, f)
      else ProbedFirst(lo, mid - 1, f)
  }

  lemma SearchesRight(entries: seq<IndexEntry>, offset: int, f: int, lo: int, hi: int)
    requires Sorted(entries) && IsFloor(entries, offset, f)
    requires 0 <= lo && (lo + hi) / 2 < f <= hi < |entries|
    ensures Search(entries, offset, lo, hi) == Search(entries, offset, (lo + hi) / 2 + 1, hi)
  {
    var mid := (lo + hi) / 2;
    assert entries[mid].offset < entries[f].offset && entries[mid + 1].offset <= entries[f].offset;
  }

  lemma SearchesLeft(entries: seq<IndexEntry>, offset: int, f: int, lo: int, hi: int)
    requires Sorted(entries) && IsFloor(entries, offset, f)
    requires 0 <= lo <= f < (lo + hi) / 2 && hi < |entries|
    ensures Search(entries, offset, lo, hi) == Search(entries, offset, lo, (lo + hi) / 2 - 1)
  {
    assert entries[f + 1].offset <= entries[(lo + hi) / 2].offset;
  }

  /** Probing the floor itself. */
  lemma SearchEnds(entries: seq<IndexEntry>, offset: int, f: int, lo: int, hi: int)
    requires Sorted(entries) && IsFloor(entries, offset, f)
    requires 0 <= lo <= f <= hi < |entries| && (lo + hi) / 2 == f
    ensures Search(entries, offset, lo, hi)
         == if entries[f].offset == offset || f + 1 <= hi then entries[f] else entries[0]
  {
    if f == hi {
      assert Search(entries, offset, f + 1, hi) == entries[0];
    }
  }

  /** The search ends on the floor entry when the floor is hit exactly or probed first, and
      on the very first entry otherwise. */
  lemma {:induction false} SearchResult(entries: seq<IndexEntry>, offset: int, f: int, lo: int, hi: int)
    requires Sorted(entries) && IsFloor(entries, offset, f)
    requires 0 <= lo <= f <= hi < |entries|
    ensures Search(entries, offset, lo, hi)
         == if entries[f].offset == offset || ProbedFirst(lo, hi, f) then entries[f] else entries[0]
    decreases hi - lo
  {
    hide Search, Sorted;
    var mid := (lo + hi) / 2;
    if mid < f {
      SearchesRight(entries, offset, f, lo, hi);
      SearchResult(entries, offset, f, mid + 1, hi);
    } else if mid > f {
      SearchesLeft(entries, offset, f, lo, hi);
      SearchResult(entries, offset, f, lo, mid - 1);
    } else {
      SearchEnds(entries, offset, f, lo, hi);
    }
  }

  /** When the index search returns the exact floor. It can miss it, and then falls back to
      the first entry; it never passes the target. */
  lemma FloorExactlyWhen(entries: seq<IndexEntry>, offset: int, f: int)
    requires Sorted(entries) && IsFloor(entries, offset, f)
    ensures Found(entries, offset) == entries[f] || Found(entries, offset) == entries[0]
    ensures Found(entries, offset) == entries[f]
       <==> f == 0 || f == |entries| - 1 || entries[f].offset == offset || ProbedFirst(0, |entries| - 1, f)
  {
    hide Search, ProbedFirst;
    var n := |entries|;
    assert f > 0 ==> entries[0].offset < entries[f].offset;
    assert f + 1 < n ==> entries[f + 1].offset <= entries[n - 1].offset;
    if entries[0].offset < offset < entries[n - 1].offset {
      SearchResult(entries, offset, f, 0, n - 1);
    }
  }

  /** A floor the search misses: offset 15 among 0, 10, 20, 30, 40. */
  lemma FloorMissed()
    ensures var entries := [IndexEntry(0, 32), IndexEntry(10, 132), IndexEntry(20, 232), IndexEntry(30, 332),
                            IndexEntry(40, 432)];
            IsFloor(entries, 15, 1) && Found(entries, 15) == entries[0] != entries[1]
  {
    var entries := [IndexEntry(0, 32), IndexEntry(10, 132), IndexEntry(20, 232), IndexEntry(30, 332),
                    IndexEntry(40, 432)];
    assert !ProbedFirst(1, 1, 1);
    assert !ProbedFirst(0, 1, 1);
    assert !ProbedFirst(0, 4, 1);
    FloorExactlyWhen(entries, 15, 1);
  }

  // ------------------------------------------------------------------ byte ranges

  /** First and last byte to serve, or (-1, -1). */
  function ComputeSegmentRange(seg: SegmentRange, entries: seq<IndexEntry>, offset: int, maxBytes: int): (int, int) {
    if seg.size <= FOOTER_LEN then (-1, -1)
    else
      var start := Found(entries, offset).position;
      var endLimit := seg.size - FOOTER_LEN;
      if endLimit <= start then (-1, -1)
      else
        var maxEnd := start + maxBytes - 1;
        (start, if maxBytes > 0 && maxEnd < endLimit - 1 then maxEnd else endLimit - 1)
  }

  function SegmentRangeForOffset(seg: SegmentRange, entries: seq<IndexEntry>, offset: int,
                                 maxBytes: int): Option<ByteRange> {
    if seg.size <= 0 || entries == [] then None
    else
      var (start, end) := ComputeSegmentRange(seg, entries, offset, maxBytes);
      if start < 0 || end < start then None else Some(ByteRange(start, end))
  }

  function SliceFull(data: bytes, maxBytes: int): bytes {
    var start := if HEADER_LEN > |data| then |data| else HEADER_LEN;
    var end := if |data| > FOOTER_LEN then |data| - FOOTER_LEN else |data|;
    var stop := if end < start then |data| else end;
    Limited(data[start..stop], maxBytes)
  }

  /** Slicing a whole segment. A start beyond the data cannot be sliced (the source would panic). */
  function SliceCached(seg: SegmentRange, entries: seq<IndexEntry>, offset: int, maxBytes: int,
                       data: bytes): Result<bytes> {
    if entries == [] then Ok(SliceFull(data, maxBytes))
    else
      var (start, end) := ComputeSegmentRange(seg, entries, offset, maxBytes);
      if start < 0 || end < start then Err(OffsetOutOfRange)
      else
        var stop := if end >= |data| then |data| else end + 1;
        if start > stop then Err(InvalidRange) else Ok(data[start..stop])
  }

  /** The first `maxBytes` bytes, or all of them when there is no positive limit. */
  function Limited(s: bytes, maxBytes: int): (r: bytes)
    ensures r <= s
  {
    if maxBytes > 0 && |s| > maxBytes then s[..maxBytes] else s
  }

  /** The ranged download and the slice of a whole copy select the same bytes. */
  lemma PathsAgree(seg: SegmentRange, entries: seq<IndexEntry>, offset: int, maxBytes: int, data: bytes)
    requires |data| == seg.size
    ensures var rng := SegmentRangeForOffset(seg, entries, offset, maxBytes);
            rng.Some? ==> Ranged(data, rng.value) == SliceCached(seg, entries, offset, maxBytes, data)
  {
  }

  // --------------------------------------------------- what the bytes are made of

  /** `seg` and `entries` describe the stored segment `data` holding `batches`. */
  ghost predicate Describes(seg: SegmentRange, entries: seq<IndexEntry>, data: bytes, batches: seq<RecordBatch>,
                            stamp: Stamp) {
    && batches != [] && Contiguous(batches)
    && (forall i :: 0 <= i < |batches| ==> batches[i].data != [])
    && data == SegmentBytes(batches, stamp)
    && seg == SegmentRange(batches[0].baseOffset, batches[|batches| - 1].LastOffset(), |data|)
    && IndexSound(entries, batches)
  }

  lemma BodyFrom(batches: seq<RecordBatch>, stamp: Stamp, i: nat)
    requires i < |batches|
    ensures var s := SegmentBytes(batches, stamp);
            HEADER_LEN + |Concat(batches[..i])| <= |s| - FOOTER_LEN
            && s[HEADER_LEN + |Concat(batches[..i])|..|s| - FOOTER_LEN] == Concat(batches[i..])
  {
    var s := SegmentBytes(batches, stamp);
    ConcatSplit(batches, i);
    var a, b := Concat(batches[..i]), Concat(batches[i..]);
    hide Concat, Header, Footer;
    var h := Header(batches[0].baseOffset, TotalMessages(batches), stamp.createdMs);
    var f := Footer(stamp.crc, batches[|batches| - 1].LastOffset());
    assert s == h + (a + b) + f;
    assert s[|h| + |a|..|s| - |f|] == b;
  }

  lemma {:induction false} TailNonEmpty(batches: seq<RecordBatch>, i: nat)
    requires i < |batches| && batches[i].data != []
    ensures Concat(batches[i..]) != []
  {
    var t := batches[i..];
    ConcatSplit(t, 1);
    assert t[..1] == [batches[i]];
    ConcatOne(batches[i]);
  }

  /** A read inside a segment returns whole batches from some batch at or before the offset,
      up to the end of the segment, cut at the byte limit. */
  lemma SegmentRead(seg: SegmentRange, entries: seq<IndexEntry>, data: bytes, batches: seq<RecordBatch>, stamp: Stamp,
                    offset: int, maxBytes: int) returns (i: nat)
    requires Describes(seg, entries, data, batches, stamp)
    requires seg.baseOffset <= offset
    ensures i < |batches| && batches[i].baseOffset <= offset
    ensures SliceCached(seg, entries, offset, maxBytes, data) == Ok(Limited(Concat(batches[i..]), maxBytes))
  {
    var e := EntryBatch(entries, batches, offset);
    i := e;
    BodyFrom(batches, stamp, i);
    TailNonEmpty(batches, i);
    SliceFrom(seg, entries, offset, maxBytes, data, HEADER_LEN + |Concat(batches[..i])|);
  }

  lemma EntryBatch(entries: seq<IndexEntry>, batches: seq<RecordBatch>, offset: int) returns (i: nat)
    requires batches != [] && IndexSound(entries, batches) && batches[0].baseOffset <= offset
    ensures i < |batches| && batches[i].baseOffset <= offset
    ensures Found(entries, offset).position == HEADER_LEN + |Concat(batches[..i])|
  {
    var e := Found(entries, offset);
    hide Found, Concat;
    assert e in entries;
    assert PointsIn(e, batches);
    i :| 0 <= i < |batches| && PointsAt(e, batches, i);
  }

  lemma SliceFrom(seg: SegmentRange, entries: seq<IndexEntry>, offset: int, maxBytes: int, data: bytes, start: nat)
    requires entries != [] && |data| == seg.size && Found(entries, offset).position == start < |data| - FOOTER_LEN
    ensures SliceCached(seg, entries, offset, maxBytes, data)
         == Ok(Limited(data[start..|data| - FOOTER_LEN], maxBytes))
  {
    hide Found;
    var body := data[start..|data| - FOOTER_LEN];
    if maxBytes > 0 && |body| > maxBytes {
      assert body[..maxBytes] == data[start..start + maxBytes];
    }
  }

  /** `s` is the stored batches from the `i`th on, with the `k`th among them. */
  ghost predicate CarriesAt(s: bytes, batches: seq<RecordBatch>, i: nat, k: nat) {
    i <= k < |batches| && s == Concat(batches[i..k]) + batches[k].data + Concat(batches[k + 1..])
  }

  /** `s` is the tail of a stored segment's batches, from one of them on, and has batch `b` in it,
      whole and between whole batches of that segment. */
  ghost predicate Carries(s: bytes, batches: seq<RecordBatch>, b: RecordBatch) {
    exists i: nat, k: nat :: CarriesAt(s, batches, i, k) && batches[k] == b
  }

  lemma SplitTail(batches: seq<RecordBatch>, i: nat, k: nat)
    requires i <= k < |batches|
    ensures CarriesAt(Concat(batches[i..]), batches, i, k)
  {
    hide Concat;
    var t, u := batches[i..], batches[k..];
    ConcatSplit(t, k - i);
    ConcatSplit(u, 1);
    ConcatOne(batches[k]);
    assert t[..k - i] == batches[i..k] && t[k - i..] == u;
    assert u[..1] == [batches[k]] && u[1..] == batches[k + 1..];
  }

  /** An unlimited read at any offset of batch `k` returns bytes that contain that batch whole. */
  lemma SegmentReadCarries(seg: SegmentRange, entries: seq<IndexEntry>, data: bytes, batches: seq<RecordBatch>,
                           stamp: Stamp,
                           k: nat, offset: int, maxBytes: int)
    requires Describes(seg, entries, data, batches, stamp)
    requires k < |batches| && batches[k].baseOffset <= offset <= batches[k].LastOffset() && maxBytes <= 0
    ensures var r := SliceCached(seg, entries, offset, maxBytes, data); r.Ok? && Carries(r.value, batches, batches[k])
  {
    ContiguousOrder(batches, 0, k);
    var i := SegmentRead(seg, entries, data, batches, stamp, offset, maxBytes);
    if i > k { ContiguousOrder(batches, k + 1, i); }
    SplitTail(batches, i, k);
  }
}
