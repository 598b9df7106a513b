/** Kafka record batches as the log sees them: an opaque frame whose header
    fields at fixed positions carry offsets and counts. */
module RecordBatches {
  import opened Bytes
  import opened Wrappers

  const HEADER_MIN_SIZE := 61

  datatype RecordBatch = RecordBatch(baseOffset: int, lastOffsetDelta: int, messageCount: int, data: bytes) {
    function LastOffset(): int { baseOffset + lastOffsetDelta }
  }

  function NewRecordBatchFromBytes(data: bytes): (r: Result<RecordBatch>)
    ensures r.Ok? <==> |data| >= HEADER_MIN_SIZE
  {
    if |data| < HEADER_MIN_SIZE then Err(Malformed)
    else Ok(RecordBatch(GetInt64(data[0..8]), GetInt32(data[23..27]), GetInt32(data[57..61]), data))
  }

  /** The batch after PatchRecordBatchBaseOffset. */
  function Patched(batch: RecordBatch, baseOffset: int): (r: RecordBatch)
    requires |batch.data| >= 8
    ensures |r.data| == |batch.data|
  {
    batch.(baseOffset := baseOffset, data := PutUint64(baseOffset) + batch.data[8..])
  }

  /** Patching rewrites the base offset that a later parse will find, and nothing else. */
  lemma PatchedReparses(data: bytes, baseOffset: int)
    requires |data| >= HEADER_MIN_SIZE && IsInt64(baseOffset)
    ensures var b := NewRecordBatchFromBytes(data).value;
            NewRecordBatchFromBytes(Patched(b, baseOffset).data) == Ok(Patched(b, baseOffset))
  {
    var d := PutUint64(baseOffset) + data[8..];
    assert d[0..8] == PutUint64(baseOffset);
    assert d[23..27] == data[23..27];
    assert d[57..61] == data[57..61];
    GetPut64(baseOffset);
  }

  /** The in-place header rewrite on the batch's own buffer. */
  method PatchRecordBatchBaseOffset(buf: array<byte>, baseOffset: int)
    requires buf.Length >= 8
    modifies buf
    ensures buf[..] == PutUint64(baseOffset) + old(buf[..])[8..]
  {
    hide PutUint64;
    var enc := PutUint64(baseOffset);
    for i := 0 to 8
      invariant forall k :: 0 <= k < i ==> buf[k] == enc[k]
      invariant forall k :: i <= k < buf.Length ==> buf[k] == old(buf[k])
    {
      buf[i] := enc[i];
    }
  }

  /** The record set: the batches' bytes one after another. */
  function Concat(batches: seq<RecordBatch>): bytes {
    if batches == [] then []
    else Concat(batches[..|batches| - 1]) + batches[|batches| - 1].data
  }

  lemma {:induction false} ConcatAppend(a: seq<RecordBatch>, b: seq<RecordBatch>)
    ensures Concat(a + b) == Concat(a) + Concat(b)
  {
    if b == [] {
      assert a + b == a;
    } else {
      var n := |b| - 1;
      ConcatAppend(a, b[..n]);
      assert (a + b)[..|a + b| - 1] == a + b[..n] && (a + b)[|a + b| - 1] == b[n];
      assert (Concat(a) + Concat(b[..n])) + b[n].data == Concat(a) + (Concat(b[..n]) + b[n].data);
    }
  }

  lemma ConcatOne(b: RecordBatch)
    ensures Concat([b]) == b.data
  {
    assert [b][..0] == [];
    assert Concat([]) + b.data == b.data;
  }

  /** A record set splits at any batch boundary. */
  lemma ConcatSplit(batches: seq<RecordBatch>, i: nat)
    requires i <= |batches|
    ensures Concat(batches) == Concat(batches[..i]) + Concat(batches[i..])
  {
    assert batches == batches[..i] + batches[i..];
    ConcatAppend(batches[..i], batches[i..]);
  }

  /** Batches numbered the way AppendBatch numbers them: each starts where the previous one ended. */
  predicate Contiguous(batches: seq<RecordBatch>) {
    && (forall i :: 0 <= i < |batches| ==> batches[i].lastOffsetDelta >= 0)
    && (forall i :: 0 < i < |batches| ==> batches[i].baseOffset == batches[i - 1].LastOffset() + 1)
  }

  lemma {:induction false} ContiguousOrder(batches: seq<RecordBatch>, i: nat, j: nat)
    requires Contiguous(batches) && i <= j < |batches|
    ensures batches[i].baseOffset + (j - i) <= batches[j].baseOffset
    decreases j - i
  {
    if i < j { ContiguousOrder(batches, i, j - 1); }
  }
}
