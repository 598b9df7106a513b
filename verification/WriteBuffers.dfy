/** The write buffer in front of segment serialization (pkg/storage/buffer.go). */
module WriteBuffers {
  import opened RecordBatches

  datatype BufferConfig = BufferConfig(maxBytes: int, maxMessages: int, maxBatches: int, flushInterval: int)

  datatype Buffer = Buffer(batches: seq<RecordBatch>, sizeBytes: int, messageCount: int, lastFlush: int)

  function MessageSum(batches: seq<RecordBatch>): int {
    if batches == [] then 0
    else MessageSum(batches[..|batches| - 1]) + batches[|batches| - 1].messageCount
  }

  /** The counters are the sums they stand for. */
  predicate Counted(b: Buffer) {
    b.sizeBytes == |Concat(b.batches)| && b.messageCount == MessageSum(b.batches)
  }

  function Appended(b: Buffer, batch: RecordBatch): Buffer {
    Buffer(b.batches + [batch], b.sizeBytes + |batch.data|, b.messageCount + batch.messageCount, b.lastFlush)
  }

  function Drained(b: Buffer, now: int): Buffer {
    Buffer([], 0, 0, now)
  }

  predicate ShouldFlush(cfg: BufferConfig, b: Buffer, now: int) {
    b.sizeBytes != 0
    && (|| (cfg.maxBytes > 0 && b.sizeBytes >= cfg.maxBytes)
        || (cfg.maxMessages > 0 && b.messageCount >= cfg.maxMessages)
        || (cfg.maxBatches > 0 && |b.batches| >= cfg.maxBatches)
        || (cfg.flushInterval > 0 && now - b.lastFlush >= cfg.flushInterval))
  }

  class WriteBuffer {
    const cfg: BufferConfig
    var batches: seq<RecordBatch>
    var sizeBytes: int
    var messageCount: int
    var lastFlush: int

    ghost function View(): Buffer
      reads this
    {
      Buffer(batches, sizeBytes, messageCount, lastFlush)
    }

    constructor (cfg: BufferConfig, now: int)
      ensures this.cfg == cfg && View() == Buffer([], 0, 0, now) && Counted(View())
    {
      this.cfg := cfg;
      batches, sizeBytes, messageCount, lastFlush := [], 0, 0, now;
    }

    method Append(batch: RecordBatch)
      requires Counted(View())
      modifies this
      ensures View() == Appended(old(View()), batch)
      ensures Counted(View())
    {
      batches := batches + [batch];
      sizeBytes := sizeBytes + |batch.data|;
      messageCount := messageCount + batch.messageCount;
      assert batches[..|batches| - 1] == old(batches);
    }

    /** A buffer is due exactly when it holds bytes and one of the enabled thresholds is met. */
    method Due(now: int) returns (due: bool)
      ensures due == ShouldFlush(cfg, View(), now)
    {
      if sizeBytes == 0 { return false; }
      if cfg.maxBytes > 0 && sizeBytes >= cfg.maxBytes { return true; }
      if cfg.maxMessages > 0 && messageCount >= cfg.maxMessages { return true; }
      if cfg.maxBatches > 0 && |batches| >= cfg.maxBatches { return true; }
      if cfg.flushInterval > 0 && now - lastFlush >= cfg.flushInterval { return true; }
      return false;
    }

    method Drain(now: int) returns (drained: seq<RecordBatch>)
      modifies this
      ensures drained == old(batches)
      ensures View() == Drained(old(View()), now) && Counted(View())
      ensures batches == [] && sizeBytes == 0 && messageCount == 0 && lastFlush == now
    {
      drained := batches;
      batches, sizeBytes, messageCount, lastFlush := [], 0, 0, now;
    }
  }
}
