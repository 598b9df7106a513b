/** Reopening a partition from its objects. */
module LogRecovery {
  import opened Bytes
  import opened Sorting
  import opened Wrappers
  import opened RecordBatches
  import opened SparseIndex
  import opened Segments
  import opened ObjectStore
  import opened PartitionLogs
  import opened LogMachine
  import opened LogInvariant

  lemma {:induction false} AtLeastOneByteEach(batches: seq<RecordBatch>)
    requires forall i :: 0 <= i < |batches| ==> batches[i].data != []
    ensures |batches| <= |Concat(batches)|
  {
    if batches != [] { AtLeastOneByteEach(batches[..|batches| - 1]); }
  }

  /** A stored segment's index survives serialization. */
  lemma StoredIndexParses(interval: int, s: Stored)
    requires StoredOk(s)
    ensures ParsedIndex(IndexBytes(IndexOf(interval, s.batches))) == Ok(IndexOf(interval, s.batches).entries)
    ensures IndexSound(IndexOf(interval, s.batches).entries, s.batches)
  {
    var batches := s.batches;
    var builder := IndexOf(interval, batches);
    IndexOfSound(interval, batches);
    AtLeastOneByteEach(batches);
    hide IndexOf, Concat, ParsedIndex, IndexBytes;
    var entries := builder.entries;
    forall k | 0 <= k < |entries| ensures IsInt64(entries[k].offset) && IsInt32(entries[k].position) {
      assert PointsIn(entries[k], batches);
      var i: nat :| i < |batches| && PointsAt(entries[k], batches, i);
      ConcatPrefixLength(batches, i);
      ContiguousOrder(batches, 0, i);
      ContiguousOrder(batches, i, |batches| - 1);
    }
    IndexRoundTrip(builder);
  }

  /** A stored segment's footer gives back its last offset. */
  lemma StoredFooterParses(cfg: Config, objs: Objects, s: Stored)
    requires StoredOk(s) && Holds(cfg, objs, s)
    ensures Footed(objs, Base(s)) && RestoredRange(objs, Base(s)) == RangeOf(s)
    ensures Indexed(objs, Base(s)) <==> s.indexed
    ensures Indexed(objs, Base(s)) <==> Base(s) in objs.index
    ensures s.indexed ==> ParsedIndex(objs.index[Base(s)]) == Ok(IndexOf(cfg.interval, s.batches).entries)
  {
    FirstNotLast(s);
    SegmentFooter(s.batches, s.stamp);
    StoredIndexParses(cfg.interval, s);
    hide ParsedIndex, IndexBytes, IndexOf, SegmentBytes, ParseFooter, Serializable;
  }

  ghost function Bases(hist: seq<Stored>): (r: seq<int>)
    requires NonEmpty(hist)
    ensures |r| == |hist| && forall i :: 0 <= i < |r| ==> r[i] == Base(hist[i])
  {
    seq(|hist|, i requires 0 <= i < |hist| => Base(hist[i]))
  }

  lemma {:induction false} CandidatesAll(objs: Objects, listing: seq<int>)
    requires forall b :: b in listing ==> b in objs.data && |objs.data[b]| >= FOOTER_LEN
    ensures Candidates(objs, listing) == listing
  {
    if listing != [] {
      var n := |listing| - 1;
      var front := listing[..n];
      var b := listing[n];
      assert b in listing && |objs.data[b]| >= FOOTER_LEN;
      CandidatesAll(objs, front);
      assert Candidates(objs, listing) == front + [listing[n]];
    }
  }

  /** Every segment object was stored by a flush, and is big enough for a footer. */
  lemma StoredAt(cfg: Config, objs: Objects, hist: seq<Stored>, b: int) returns (i: nat)
    requires ObjsOk(cfg, objs, hist) && b in objs.data
    ensures i < |hist| && hist[i].batches != [] && Base(hist[i]) == b && |objs.data[b]| >= FOOTER_LEN
  {
    hide SegmentBytes, IndexBytes, IndexOf, HistOk;
    assert HasBase(hist, b);
    i :| 0 <= i < |hist| && hist[i].batches != [] && Base(hist[i]) == b;
    assert Holds(cfg, objs, hist[i]);
  }

  lemma BaseStored(cfg: Config, objs: Objects, hist: seq<Stored>, i: nat)
    requires ObjsOk(cfg, objs, hist) && i < |hist|
    ensures NonEmpty(hist) && Bases(hist)[i] in objs.data
  {
    hide SegmentBytes, IndexBytes, IndexOf, Serializable, HasBase;
    assert Holds(cfg, objs, hist[i]);
  }

  lemma BasesAscend(hist: seq<Stored>)
    requires HistOk(hist) && NonEmpty(hist)
    ensures StrictlySorted(Bases(hist))
  {
    hide Serializable;
    var bases := Bases(hist);
    forall i, j | 0 <= i < j < |bases| ensures bases[i] < bases[j] { FirstNotLast(hist[i]); }
  }

  /** However the object store lists the segments, recovery sees them in upload order. */
  lemma RecoveredBases(cfg: Config, objs: Objects, hist: seq<Stored>, listing: seq<int>)
    requires ObjsOk(cfg, objs, hist) && Lists(listing, objs)
    ensures SortInts(Candidates(objs, listing)) == Bases(hist)
  {
    hide Holds, HasBase, Serializable, SortInts;
    forall b | b in objs.data ensures |objs.data[b]| >= FOOTER_LEN { var i := StoredAt(cfg, objs, hist, b); }
    CandidatesAll(objs, listing);
    SortIntsSorted(listing);
    BasesAscend(hist);
    var sorted, bases := SortInts(listing), Bases(hist);
    forall b ensures b in sorted <==> b in bases {
      if b in objs.data {
        var i := StoredAt(cfg, objs, hist, b);
        assert bases[i] == b;
      }
      if b in bases {
        var i :| 0 <= i < |bases| && bases[i] == b;
        BaseStored(cfg, objs, hist, i);
      }
    }
    SortedUnique(sorted, bases);
  }

  lemma {:induction false} LiveRangesAll(hist: seq<Stored>)
    requires NonEmpty(hist)
    ensures NonEmpty(AllLive(hist))
    ensures |LiveRanges(AllLive(hist))| == |hist|
    ensures forall i :: 0 <= i < |hist| ==> LiveRanges(AllLive(hist))[i] == RangeOf(hist[i])
  {
    if hist != [] {
      var n := |hist| - 1;
      LiveRangesAll(hist[..n]);
      assert AllLive(hist)[..n] == AllLive(hist[..n]);
      SameRange(hist[n]);
      hide RangeOf;
      assert LiveRanges(AllLive(hist)) == LiveRanges(AllLive(hist[..n])) + [RangeOf(hist[n])];
    }
  }

  lemma SameRange(s: Stored)
    requires s.batches != []
    ensures RangeOf(s.(live := true)) == RangeOf(s)
  {
  }

  lemma HasBaseSnoc(front: seq<Stored>, s: Stored, b: int)
    requires s.batches != []
    ensures HasBase(front + [s], b) <==> HasBase(front, b) || b == Base(s)
  {
    var hist := front + [s];
    assert hist[|front|] == s;
    if HasBase(hist, b) && b != Base(s) {
      var i :| 0 <= i < |hist| && hist[i].batches != [] && Base(hist[i]) == b;
      assert front[i] == hist[i];
    }
    if HasBase(front, b) {
      var i :| 0 <= i < |front| && front[i].batches != [] && Base(front[i]) == b;
      assert hist[i] == front[i];
    }
  }

  /** `m` maps each base of the history to the index entries of its batches. */
  ghost predicate IndexesAll(cfg: Config, m: map<int, seq<IndexEntry>>, hist: seq<Stored>)
    requires NonEmpty(hist)
  {
    && (forall b :: b in m <==> HasBase(hist, b))
    && (forall i ::
          0 <= i < |hist| ==> Base(hist[i]) in m && m[Base(hist[i])] == IndexOf(cfg.interval, hist[i].batches).entries)
  }

  lemma {:induction false} LiveIndexAll(cfg: Config, hist: seq<Stored>)
    requires HistOk(hist)
    ensures NonEmpty(AllLive(hist)) && IndexesAll(cfg, LiveIndex(cfg, AllLive(hist)), hist)
  {
    hide IndexOf, Serializable, IndexesAll;
    if hist == [] {
      IndexesNothing(cfg);
    } else {
      var n := |hist| - 1;
      var front, s := hist[..n], hist[n];
      assert hist == front + [s];
      LiveIndexAll(cfg, front);
      LiveExtends(cfg, AllLive(front), s.(live := true));
      assert AllLive(hist) == AllLive(front) + [s.(live := true)];
      hide LiveIndex;
      IndexesSnoc(cfg, LiveIndex(cfg, AllLive(front)), front, s);
    }
  }

  lemma IndexesNothing(cfg: Config)
    ensures IndexesAll(cfg, map[], [])
  {
  }

  lemma IndexesSnoc(cfg: Config, m: map<int, seq<IndexEntry>>, front: seq<Stored>, s: Stored)
    requires s.batches != [] && HistOk(front + [s]) && NonEmpty(front) && IndexesAll(cfg, m, front)
    ensures IndexesAll(cfg, m[Base(s) := IndexOf(cfg.interval, s.batches).entries], front + [s])
  {
    hide IndexOf, Serializable;
    var hist := front + [s];
    var n := |front|;
    assert hist[n] == s && forall i :: 0 <= i < n ==> hist[i] == front[i];
    forall i | 0 <= i < n ensures Base(hist[i]) < Base(s) { FirstNotLast(hist[i]); }
    hide HasBase, HistOk, StoredOk;
    var m' := m[Base(s) := IndexOf(cfg.interval, s.batches).entries];
    forall b ensures b in m' <==> HasBase(hist, b) { HasBaseSnoc(front, s, b); }
  }

  lemma IndexMapUnique(cfg: Config, m: map<int, seq<IndexEntry>>, m': map<int, seq<IndexEntry>>, hist: seq<Stored>)
    requires NonEmpty(hist) && IndexesAll(cfg, m, hist) && IndexesAll(cfg, m', hist)
    ensures m == m'
  {
    forall b | b in m ensures b in m' && m[b] == m'[b] {
      assert HasBase(hist, b);
      var i :| 0 <= i < |hist| && hist[i].batches != [] && Base(hist[i]) == b;
    }
    assert forall b :: b in m <==> b in m';
  }

  ghost predicate AllIndexed(hist: seq<Stored>) {
    forall i :: 0 <= i < |hist| ==> hist[i].indexed
  }

  /** The index map recovery builds. */
  lemma RecoveredIndex(cfg: Config, objs: Objects, hist: seq<Stored>, m: map<int, seq<IndexEntry>>)
    requires ObjsOk(cfg, objs, hist) && AllIndexed(hist)
    requires AllParsed(objs, Bases(hist)) && m == RestoredIndex(objs, Bases(hist))
    ensures m == LiveIndex(cfg, AllLive(hist))
  {
    hide IndexOf, Serializable, ParsedIndex, IndexBytes, SegmentBytes, LiveIndex, RestoredIndex;
    var bases := Bases(hist);
    forall i | 0 <= i < |hist|
      ensures Base(hist[i]) in m && m[Base(hist[i])] == IndexOf(cfg.interval, hist[i].batches).entries
    {
      assert bases[i] == Base(hist[i]);
      StoredFooterParses(cfg, objs, hist[i]);
    }
    forall b ensures b in m <==> HasBase(hist, b) {
      if b in bases { var i :| 0 <= i < |bases| && bases[i] == b; assert Base(hist[i]) == b; }
      if HasBase(hist, b) {
        var i :| 0 <= i < |hist| && hist[i].batches != [] && Base(hist[i]) == b;
        assert bases[i] == b;
      }
    }
    LiveIndexAll(cfg, hist);
    IndexMapUnique(cfg, m, LiveIndex(cfg, AllLive(hist)), hist);
  }

  /** The log that the history implies: nothing to recover, everything, or a refusal. */
  ghost function Recovered(cfg: Config, hist: seq<Stored>, log: Log): Result<(Log, int)>
    requires NonEmpty(hist)
  {
    if !AllIndexed(hist) then Err(Unavailable)
    else if hist == [] then Ok((log, -1))
    else
      var last := Last(hist[|hist| - 1]);
      Ok((log.(segments := LiveRanges(AllLive(hist)), index := LiveIndex(cfg, AllLive(hist)),
               nextOffset := if last >= log.nextOffset then last + 1 else log.nextOffset), last))
  }

  lemma StoredParses(cfg: Config, objs: Objects, hist: seq<Stored>, i: nat)
    requires ObjsOk(cfg, objs, hist) && i < |hist|
    ensures StoredOk(hist[i])
    ensures Footed(objs, Base(hist[i])) && RestoredRange(objs, Base(hist[i])) == RangeOf(hist[i])
    ensures Indexed(objs, Base(hist[i])) <==> hist[i].indexed
    ensures Indexed(objs, Base(hist[i])) <==> Base(hist[i]) in objs.index
  {
    hide Holds, HasBase, Serializable;
    StoredFooterParses(cfg, objs, hist[i]);
  }

  lemma BasesParse(cfg: Config, objs: Objects, hist: seq<Stored>)
    requires ObjsOk(cfg, objs, hist)
    ensures AllFooted(objs, Bases(hist)) && (AllParsed(objs, Bases(hist)) <==> AllIndexed(hist))
    ensures forall b :: b in Bases(hist) && b in objs.index ==> Indexed(objs, b)
  {
    var bases := Bases(hist);
    forall i | 0 <= i < |hist|
      ensures Footed(objs, bases[i]) && (Indexed(objs, bases[i]) <==> hist[i].indexed)
      ensures Indexed(objs, bases[i]) <==> bases[i] in objs.index
    {
      StoredParses(cfg, objs, hist, i);
    }
    hide ObjsOk, Footed, Indexed;
    assert AllParsed(objs, bases) ==> forall i :: 0 <= i < |hist| ==> Indexed(objs, bases[i]);
  }

  lemma RangesRestored(cfg: Config, objs: Objects, hist: seq<Stored>)
    requires ObjsOk(cfg, objs, hist) && AllFooted(objs, Bases(hist))
    ensures RestoredRanges(objs, Bases(hist)) == LiveRanges(AllLive(hist))
  {
    hide LiveRanges, RestoredRange, Footed, Indexed, Holds, HasBase, Serializable;
    forall i | 0 <= i < |hist| ensures RestoredRange(objs, Bases(hist)[i]) == RangeOf(hist[i]) {
      StoredParses(cfg, objs, hist, i);
    }
    hide *;
    LiveRangesAll(hist);
    assert RestoredRanges(objs, Bases(hist)) == LiveRanges(AllLive(hist));
  }

  lemma RecoversOrRefuses(cfg: Config, objs: Objects, hist: seq<Stored>, log: Log)
    requires ObjsOk(cfg, objs, hist)
    ensures RestoredFrom(log, objs, Bases(hist)) == Recovered(cfg, hist, log)
  {
    hide FirstFailure, RestoredIndex, RestoredRanges, LiveIndex, LiveRanges, RestoredRange, AllFooted, AllParsed,
         AllIndexed, Indexed, Holds, HasBase;
    var bases := Bases(hist);
    BasesParse(cfg, objs, hist);
    if !AllIndexed(hist) {
      NoPanic(objs, bases);
      NotAllEmpty(hist);
    } else if hist != [] {
      RangesRestored(cfg, objs, hist);
      RecoveredIndex(cfg, objs, hist, RestoredIndex(objs, bases));
      LastRange(hist);
    }
  }

  lemma NotAllEmpty(hist: seq<Stored>)
    requires !AllIndexed(hist)
    ensures hist != []
  {
  }

  lemma LastRange(hist: seq<Stored>)
    requires NonEmpty(hist) && hist != []
    ensures var r := LiveRanges(AllLive(hist)); |r| == |hist| && r[|hist| - 1].lastOffset == Last(hist[|hist| - 1])
  {
    hide LiveRanges;
    LiveRangesAll(hist);
  }

  /** RestoreFromS3 succeeds exactly when every stored segment has its index object, and then
      rebuilds the segment list, the index map and the next offset that the history implies,
      in whatever order the object store lists the segments. */
  lemma RestoredExactly(cfg: Config, objs: Objects, hist: seq<Stored>, listing: seq<int>, log: Log)
    requires ObjsOk(cfg, objs, hist) && Lists(listing, objs)
    ensures Restored(log, objs, listing) == Recovered(cfg, hist, log)
  {
    RecoveredBases(cfg, objs, hist, listing);
    RecoversOrRefuses(cfg, objs, hist, log);
  }
}
