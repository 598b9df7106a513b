/** How sparse the index of a segment is (pkg/storage/index.go, segment.go). */
module IndexSpacing {
  import opened Bytes
  import opened RecordBatches
  import opened WriteBuffers
  import opened SparseIndex
  import opened Segments

  /** Messages of the batches from `i` up to, and without, `j`. */
  function Messages(batches: seq<RecordBatch>, i: nat, j: nat): int
    requires i <= j <= |batches|
  {
    MessageSum(batches[i..j])
  }

  /** `at` says which batch each entry stands for: the first batch, and then the first batch after which
      at least `interval` messages have passed since the one before. */
  ghost predicate Gaps(interval: int, batches: seq<RecordBatch>, entries: seq<IndexEntry>, at: seq<nat>) {
    && |at| == |entries| > 0 && at[0] == 0
    && (forall k :: 0 <= k < |at| ==> at[k] < |batches| && PointsAt(entries[k], batches, at[k]))
    && (forall k :: 0 < k < |at| ==>
          && at[k - 1] < at[k]
          && Messages(batches, at[k - 1], at[k]) >= interval
          && Messages(batches, at[k - 1], at[k] - 1) < interval)
  }

  /** What follows the last entry has not come that far. */
  ghost predicate Spaced(interval: int, batches: seq<RecordBatch>, entries: seq<IndexEntry>, at: seq<nat>) {
    Gaps(interval, batches, entries, at) && Messages(batches, at[|at| - 1], |batches| - 1) < interval
  }

  lemma MessagesFront(batches: seq<RecordBatch>, i: nat, j: nat)
    requires i <= j < |batches|
    ensures Messages(batches[..|batches| - 1], i, j) == Messages(batches, i, j)
    ensures Messages(batches, i, j + 1) == Messages(batches, i, j) + batches[j].messageCount
  {
    assert batches[..|batches| - 1][i..j] == batches[i..j];
    assert batches[i..j + 1][..j - i] == batches[i..j];
  }

  lemma PointsFront(e: IndexEntry, batches: seq<RecordBatch>, i: nat)
    requires i < |batches| - 1
    ensures PointsAt(e, batches[..|batches| - 1], i) ==> PointsAt(e, batches, i)
  {
    assert batches[..|batches| - 1][..i] == batches[..i];
  }

  lemma {:induction false} MessagesBounded(batches: seq<RecordBatch>, i: nat)
    requires i <= |batches| && forall k :: 0 <= k < |batches| ==> batches[k].messageCount >= 0
    ensures 0 <= Messages(batches, i, |batches|) <= MessageSum(batches)
  {
    assert batches[|batches|..] == [];
    if i < |batches| {
      var n := |batches| - 1;
      MessagesBounded(batches[..n], i);
      MessagesFront(batches, i, n);
      assert batches[..n][i..n] == batches[i..n];
    } else if batches != [] {
      MessagesBounded(batches[..|batches| - 1], |batches| - 1);
    }
  }

  lemma GapsFront(interval: int, batches: seq<RecordBatch>, entries: seq<IndexEntry>, at: seq<nat>)
    requires batches != [] && Gaps(interval, batches[..|batches| - 1], entries, at)
    ensures Gaps(interval, batches, entries, at)
  {
    hide Messages, PointsAt;
    var front := batches[..|batches| - 1];
    forall k | 0 <= k < |at| ensures PointsAt(entries[k], batches, at[k]) { PointsFront(entries[k], batches, at[k]); }
    forall k | 0 < k < |at|
      ensures Messages(batches, at[k - 1], at[k]) == Messages(front, at[k - 1], at[k])
      ensures Messages(batches, at[k - 1], at[k] - 1) == Messages(front, at[k - 1], at[k] - 1)
    {
      MessagesFront(batches, at[k - 1], at[k]);
      MessagesFront(batches, at[k - 1], at[k] - 1);
    }
  }

  lemma GapsSnoc(interval: int, batches: seq<RecordBatch>, entries: seq<IndexEntry>, at: seq<nat>, e: IndexEntry)
    requires Gaps(interval, batches, entries, at) && at[|at| - 1] < |batches| - 1 && PointsAt(e, batches, |batches| - 1)
    requires Messages(batches, at[|at| - 1], |batches| - 1) >= interval
    requires Messages(batches, at[|at| - 1], |batches| - 2) < interval
    ensures Gaps(interval, batches, entries + [e], at + [|batches| - 1])
  {
    hide Messages, PointsAt;
  }

  /** One more batch, of which `before` describes what came before. */
  lemma NextSpaced(b: Builder, batches: seq<RecordBatch>, before: seq<nat>, position: int) returns (at: seq<nat>)
    requires |batches| > 1 && b.interval > 0 && position == HEADER_LEN + |Concat(batches[..|batches| - 1])|
    requires var front := batches[..|batches| - 1];
             Spaced(b.interval, front, b.entries, before)
                 && b.sinceLast == Messages(front, before[|before| - 1], |front|)
    requires 0 <= Messages(batches, before[|before| - 1], |batches|) < TWO31
    requires 0 <= batches[|batches| - 1].messageCount < TWO31
    ensures var last := batches[|batches| - 1];
            var b' := MaybeAdd(b, last.baseOffset, position, last.messageCount);
            && Spaced(b.interval, batches, b'.entries, at) && b'.interval == b.interval
            && b'.sinceLast == Messages(batches, at[|at| - 1], |batches|)
  {
    hide Concat, Messages, Gaps;
    var n := |batches| - 1;
    LastWithin(b.interval, batches[..n], b.entries, before);
    var last, l := batches[n], before[|before| - 1];
    GapsFront(b.interval, batches, b.entries, before);
    MessagesFront(batches, l, n);
    MessagesFront(batches, l, n - 1);
    MessagesFront(batches, n, n);
    NoMessages(batches, n);
    if b.sinceLast >= b.interval {
      at := before + [n];
      GapsSnoc(b.interval, batches, b.entries, before, IndexEntry(last.baseOffset, position));
      assert at[|at| - 1] == n;
    } else {
      at := before;
    }
  }

  lemma NoMessages(batches: seq<RecordBatch>, n: nat)
    requires n <= |batches|
    ensures Messages(batches, n, n) == 0
  {
  }

  lemma LastWithin(interval: int, batches: seq<RecordBatch>, entries: seq<IndexEntry>, at: seq<nat>)
    requires Gaps(interval, batches, entries, at)
    ensures |at| == |entries| > 0 && at[|at| - 1] < |batches|
  {
  }

  /** The index that is built with a segment, for any interval and any batches whose message counts are
      not negative and fit 31 bits together. */
  lemma {:induction false} IndexIsSpaced(interval: int, batches: seq<RecordBatch>) returns (at: seq<nat>)
    requires batches != [] && forall k :: 0 <= k < |batches| ==> batches[k].messageCount >= 0
    requires MessageSum(batches) < TWO31 && HEADER_LEN + |Concat(batches)| < TWO31
    ensures var b := IndexOf(interval, batches);
            && Spaced(b.interval, batches, b.entries, at) && b.interval == (if interval <= 0 then 1 else interval)
            && b.sinceLast == Messages(batches, at[|at| - 1], |batches|)
  {
    hide ToInt32, Messages, Gaps, Concat;
    var n := |batches| - 1;
    var front, last := batches[..n], batches[n];
    IndexSnoc(interval, batches);
    hide IndexOf;
    MessagesBounded(batches, n);
    MessagesFront(batches, n, n);
    NoMessages(batches, n);
    ConcatFront(batches);
    if front == [] {
      at := [0];
      FirstGap(interval, batches);
      assert n == 0 && front == batches[..0] && last == batches[0];
      assert IndexOf(interval, batches).entries == [IndexEntry(batches[0].baseOffset, HEADER_LEN)];
    } else {
      assert MessageSum(batches) == MessageSum(front) + last.messageCount;
      var before := IndexIsSpaced(interval, front);
      var b := IndexOf(interval, front);
      LastWithin(b.interval, front, b.entries, before);
      MessagesBounded(batches, before[|before| - 1]);
      at := NextSpaced(b, batches, before, HEADER_LEN + |Concat(front)|);
    }
  }

  lemma ConcatFront(batches: seq<RecordBatch>)
    requires batches != []
    ensures |Concat(batches)| == |Concat(batches[..|batches| - 1])| + |batches[|batches| - 1].data|
  {
  }

  lemma FirstGap(interval: int, batches: seq<RecordBatch>)
    requires |batches| == 1
    ensures var b := IndexOf(interval, []);
            && b == NewBuilder(interval)
            && Gaps(b.interval, batches, [IndexEntry(batches[0].baseOffset, HEADER_LEN)], [0])
            && HEADER_LEN + |Concat(batches[..0])| == HEADER_LEN
  {
  }

  lemma IndexSnoc(interval: int, batches: seq<RecordBatch>)
    requires batches != []
    ensures var front, last := batches[..|batches| - 1], batches[|batches| - 1];
            IndexOf(interval, batches)
            == MaybeAdd(IndexOf(interval, front), last.baseOffset, ToInt32(HEADER_LEN + |Concat(front)|),
                        last.messageCount)
  {
    hide MaybeAdd;
  }
}
