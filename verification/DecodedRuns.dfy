/** What the processors decode from the objects of any run of the partition machine. */
module DecodedRuns {
  import opened Bytes
  import opened Wrappers
  import opened Records
  import opened RecordBatches
  import opened WriteBuffers
  import opened SparseIndex
  import opened Segments
  import opened ObjectStore
  import opened PartitionLogs
  import opened LogMachine
  import opened LogInvariant
  import opened LogSteps
  import opened LogRecovery
  import opened LogRuns
  import opened LogTheorems
  import opened Decoders

  // ------------------------------------------------- every stored batch was appended

  ghost predicate AllIn(batches: seq<RecordBatch>, known: iset<RecordBatch>) {
    forall i :: 0 <= i < |batches| ==> batches[i] in known
  }

  ghost predicate HistIn(hist: seq<Stored>, known: iset<RecordBatch>) {
    forall i :: 0 <= i < |hist| ==> AllIn(hist[i].batches, known)
  }

  /** All batches, stored or buffered, are of the given ones. */
  ghost predicate WorldIn(w: World, known: iset<RecordBatch>) {
    HistIn(w.hist, known) && (w.log.Some? ==> AllIn(w.log.value.buffer.batches, known))
  }

  lemma FlushedIn(w: World, log: Log, io: FlushIo, notify: Option<int>, write: Write, known: iset<RecordBatch>)
    requires HistIn(w.hist, known) && AllIn(log.buffer.batches, known)
    ensures WorldIn(Flushed(w, log, io, notify, write), known)
  {
    hide Built;
    TraceShape(log.buffer.batches, io);
    hide Trace;
    assert FlushLocked(w.cfg, log, w.objs, w.cache, io).log.buffer.batches == [];
  }

  lemma NumberedIn(log: Log, batch: RecordBatch, known: iset<RecordBatch>)
    requires |batch.data| >= 8 && AllIn(log.buffer.batches, known) && Patched(batch, log.nextOffset) in known
    ensures AllIn(Numbered(log, batch).buffer.batches, known)
  {
    hide Patched;
  }

  lemma AppendIn(w: World, log: Log, batch: RecordBatch, io: FlushIo, write: Write, known: iset<RecordBatch>)
    requires WorldIn(w, known) && w.log == Some(log) && |batch.data| >= 8 && Patched(batch, log.nextOffset) in known
    ensures WorldIn(DoAppend(w, log, batch, io, write), known) && DoAppend(w, log, batch, io, write).log.Some?
  {
    hide AllIn, HistIn, FlushLocked, Numbered, ShouldFlush, AppendBatch, DoAppend, Patched;
    NumberedIn(log, batch, known);
    AppendShape(w, log, batch, io, write);
    var log1 := Numbered(log, batch);
    if ShouldFlush(w.cfg.buffer, log1.buffer, io.now) {
      var f := FlushLocked(w.cfg, log1, w.objs, w.cache, io);
      var notify := if f.result.Ok? && f.result.value.Some? then Some(f.result.value.value.lastOffset) else None;
      FlushedIn(w, log1, io, notify, write, known);
    }
  }

  lemma FlushIn(w: World, log: Log, io: FlushIo, write: Write, known: iset<RecordBatch>)
    requires WorldIn(w, known) && w.log == Some(log)
    ensures WorldIn(DoFlush(w, log, io, write), known)
  {
    hide AllIn, HistIn, FlushLocked, Trace;
    FlushedIn(w, log, io, Flush(w.cfg, log, w.objs, w.cache, io).notify, write, known);
  }

  /** Request `a` in state `w` appends the batch `b`, numbered as it is answered. */
  ghost predicate Appends(w: World, a: Action, b: RecordBatch) {
    && a.Produce? && w.log.Some? && NewRecordBatchFromBytes(a.records).Ok?
    && b == Patched(NewRecordBatchFromBytes(a.records).value, w.log.value.nextOffset)
  }

  /** The offsets of that batch are the range AppendBatch answers. */
  lemma AppendsRange(w: World, a: Action, b: RecordBatch)
    requires Appends(w, a, b)
    ensures var r := AppendBatch(w.cfg, w.log.value, w.objs, w.cache, NewRecordBatchFromBytes(a.records).value,
                                 a.append).result;
            r.Ok? ==> r.value == AppendResult(b.baseOffset, b.LastOffset())
  {
    hide FlushLocked, ShouldFlush, PutUint64, GetInt64, GetInt32;
  }

  lemma ProduceIn(w: World, log: Log, a: Action, known: iset<RecordBatch>)
    requires WorldIn(w, known) && w.log == Some(log) && a.Produce? && forall b :: Appends(w, a, b) ==> b in known
    ensures WorldIn(DoProduce(w, log, a), known)
  {
    hide AllIn, HistIn, AppendBatch, Flush, DoAppend, DoFlush, Patched;
    match NewRecordBatchFromBytes(a.records)
    case Err(_) =>
    case Ok(batch) =>
      assert Appends(w, a, Patched(batch, log.nextOffset));
      AppendIn(w, log, batch, a.append, a.write1, known);
      var w1 := DoAppend(w, log, batch, a.append, a.write1);
      FlushIn(w1, w1.log.value, a.flush, a.write2, known);
  }

  lemma OpenIn(w: World, a: Action, known: iset<RecordBatch>)
    requires Inv(w) && WorldIn(w, known) && w.log.None? && a.Open? && Lists(a.listing, w.objs)
    ensures WorldIn(DoOpen(w, a), known)
  {
    hide ObjsOk, LogOk, Coherent, Restored, HistOk, LiveRanges, LiveIndex;
    ObjsHist(w.cfg, w.objs, w.hist);
    RestoredExactly(w.cfg, w.objs, w.hist, a.listing, NewLog(w.storeNext, a.now));
  }

  lemma StepIn(w: World, a: Action, known: iset<RecordBatch>)
    requires Inv(w) && WorldIn(w, known) && Legal(w, a) && forall b :: Appends(w, a, b) ==> b in known
    ensures WorldIn(Step(w, a), known)
  {
    hide AllIn, HistIn, DoProduce, DoOpen, Read, Inv, Appends;
    if a.Produce? && w.log.Some? {
      ProduceIn(w, w.log.value, a, known);
    } else if a.Open? && w.log.None? {
      LegalOpen(w, a);
      OpenIn(w, a, known);
    }
  }

  ghost predicate AppendedBefore(actions: seq<Action>, states: seq<World>, i: nat, b: RecordBatch)
    requires i <= |actions| <= |states|
  {
    exists p :: 0 <= p < i && Appends(states[p], actions[p], b)
  }

  ghost function Appended(actions: seq<Action>, states: seq<World>, i: nat): iset<RecordBatch>
    requires i <= |actions| <= |states|
  {
    iset b: RecordBatch | AppendedBefore(actions, states, i, b)
  }

  lemma WorldInMore(w: World, s: iset<RecordBatch>, t: iset<RecordBatch>)
    requires WorldIn(w, s) && forall b :: b in s ==> b in t
    ensures WorldIn(w, t)
  {
  }

  /** Every batch in any state of any run, stored or buffered, was numbered by an append of the run. */
  lemma {:induction false} RunAppended(cfg: Config, actions: seq<Action>, states: seq<World>, i: nat)
    requires IsRun(cfg, actions, states) && i < |states|
    ensures Inv(states[i]) && WorldIn(states[i], Appended(actions, states, i))
  {
    hide Inv, Step, Legal, WorldIn, Appends;
    RunKeeps(cfg, actions, states, i);
    if i == 0 {
      NothingIn(cfg, Appended(actions, states, 0));
    } else {
      RunAppended(cfg, actions, states, i - 1);
      var known := Appended(actions, states, i);
      forall b | b in Appended(actions, states, i - 1) ensures b in known {
        var p :| 0 <= p < i - 1 && Appends(states[p], actions[p], b);
      }
      WorldInMore(states[i - 1], Appended(actions, states, i - 1), known);
      RunKeeps(cfg, actions, states, i - 1);
      StepIn(states[i - 1], actions[i - 1], known);
    }
  }

  lemma NothingIn(cfg: Config, known: iset<RecordBatch>)
    ensures WorldIn(Init(cfg), known)
  {
  }

  // ------------------------------------------------------------ batches that are frames

  ghost predicate Framed(wide: bool, b: RecordBatch) {
    exists c :: Frames(wide, b, c)
  }

  ghost predicate AllFramed(wide: bool, batches: seq<RecordBatch>) {
    forall i :: 0 <= i < |batches| ==> Framed(wide, batches[i])
  }

  ghost predicate HistFramed(wide: bool, hist: seq<Stored>) {
    forall i :: 0 <= i < |hist| ==> AllFramed(wide, hist[i].batches)
  }

  /** Producers send one uncompressed frame at a time, with rising offset deltas; what is too short
      to be a batch is refused anyway. */
  ghost predicate SendsFrame(wide: bool, a: Action) {
    a.Produce? && NewRecordBatchFromBytes(a.records).Ok? ==> Framed(wide, NewRecordBatchFromBytes(a.records).value)
  }

  /** Numbering keeps a frame a frame. */
  lemma AppendsFrame(wide: bool, w: World, a: Action, b: RecordBatch)
    requires Inv(w) && Legal(w, a) && SendsFrame(wide, a) && Appends(w, a, b)
    ensures Framed(wide, b)
  {
    hide Frames, ObjsOk, Coherent, StoreOk, Patched, LiveRanges, LiveIndex, Concat;
    var batch := NewRecordBatchFromBytes(a.records).value;
    var c :| Frames(wide, batch, c);
    PatchedFrames(wide, batch, c, w.log.value.nextOffset);
  }

  /** If producers send frames, every stored and every buffered batch is one. */
  lemma RunFramed(wide: bool, cfg: Config, actions: seq<Action>, states: seq<World>, i: nat)
    requires IsRun(cfg, actions, states) && i < |states|
    requires forall j :: 0 <= j < i ==> SendsFrame(wide, actions[j])
    ensures Inv(states[i]) && HistFramed(wide, states[i].hist)
    ensures states[i].log.Some? ==> AllFramed(wide, states[i].log.value.buffer.batches)
  {
    hide Inv, Step, Legal, Framed, Appends, SendsFrame;
    RunAppended(cfg, actions, states, i);
    forall b | AppendedBefore(actions, states, i, b) ensures Framed(wide, b) {
      var p :| 0 <= p < i && Appends(states[p], actions[p], b);
      RunKeeps(cfg, actions, states, p);
      AppendsFrame(wide, states[p], actions[p], b);
    }
  }

  // ------------------------------------------------------------------- what is decoded

  ghost function ContentOf(wide: bool, b: RecordBatch): (c: Content)
    requires Framed(wide, b)
    ensures Frames(wide, b, c)
  {
    var c :| Frames(wide, b, c); c
  }

  ghost function ContentsOf(wide: bool, batches: seq<RecordBatch>): (cs: seq<Content>)
    requires AllFramed(wide, batches)
    ensures AllFrame(wide, batches, cs)
    ensures forall i :: 0 <= i < |cs| ==> cs[i] == ContentOf(wide, batches[i])
  {
    seq(|batches|, i requires 0 <= i < |batches| => ContentOf(wide, batches[i]))
  }

  /** A stored segment decodes to what its batches hold, in increasing offsets within its range. */
  lemma StoredDecodes(wide: bool, cfg: Config, objs: Objects, s: Stored, topic: bytes, partition: int)
    requires StoredOk(s) && Holds(cfg, objs, s) && AllFramed(wide, s.batches)
    ensures var rs := AllRecords(s.batches, ContentsOf(wide, s.batches), topic, partition);
            && DecodeSegment(wide, objs.data[Base(s)], topic, partition) == Ok(rs)
            && Increasing(rs) && Within(rs, Base(s), Last(s))
  {
    hide Framed, Frames, AllRecords, DecodeSegment, SegmentBytes, Increasing, Within;
    var cs := ContentsOf(wide, s.batches);
    SegmentDecodes(wide, s.batches, cs, s.stamp, topic, partition);
    RunOffsets(wide, s.batches, cs, topic, partition);
  }

  /** The records decoded from the segment object at `base`. */
  ghost function Decoded(wide: bool, objs: Objects, base: int, topic: bytes, partition: int): Result<seq<Record>>
    requires base in objs.data
  {
    DecodeSegment(wide, objs.data[base], topic, partition)
  }

  lemma ObjectDecodes(wide: bool, w: World, base: int, topic: bytes, partition: int) returns (i: nat)
    requires Inv(w) && HistFramed(wide, w.hist) && base in w.objs.data
    ensures i < |w.hist| && StoredOk(w.hist[i]) && Base(w.hist[i]) == base
    ensures Footed(w.objs, base) && RestoredRange(w.objs, base).lastOffset == Last(w.hist[i])
    ensures var d := Decoded(wide, w.objs, base, topic, partition);
            d.Ok? && Increasing(d.value) && Within(d.value, base, Last(w.hist[i]))
  {
    hide LogOk, Coherent, StoreOk, Durable, AllFramed, DecodeSegment, Increasing, Within, Serializable, Holds, Footed;
    assert HasBase(w.hist, base);
    i :| 0 <= i < |w.hist| && w.hist[i].batches != [] && Base(w.hist[i]) == base;
    StoredFooterParses(w.cfg, w.objs, w.hist[i]);
    ObjectAt(w.cfg, w.objs, w.hist[i]);
    StoredDecodes(wide, w.cfg, w.objs, w.hist[i], topic, partition);
  }

  lemma ObjectAt(cfg: Config, objs: Objects, s: Stored)
    requires s.batches != [] && Holds(cfg, objs, s)
    ensures Base(s) in objs.data
  {
  }

  function Lookup(m: map<int, bytes>, base: int): Option<bytes> {
    if base in m then Some(m[base]) else None
  }

  /** What a processor makes of the segment at `base`: its index object, then its segment object. */
  ghost function Processed(wide: bool, objs: Objects, base: int, topic: bytes, partition: int): Result<seq<Record>> {
    DecodeObjects(wide, Lookup(objs.index, base), Lookup(objs.data, base), topic, partition)
  }

  /** The index object of a stored segment is accepted by either processor, with the entries its
      builder collected. So what a processor makes of a segment is what its object decodes to, or
      not found exactly when it has no index object. */
  lemma StoredProcesses(wide: bool, w: World, h: nat, topic: bytes, partition: int)
    requires Inv(w) && h < |w.hist| && w.hist[h].batches != []
    ensures var base := Base(w.hist[h]);
            && base in w.objs.data && (base in w.objs.index <==> w.hist[h].indexed)
            && (base in w.objs.index ==>
                  ProcessorIndex(wide, w.objs.index[base]) == Ok(IndexOf(w.cfg.interval, w.hist[h].batches).entries))
            && Processed(wide, w.objs, base, topic, partition)
               == if base in w.objs.index then Decoded(wide, w.objs, base, topic, partition) else Err(NotFound)
  {
    hide LogOk, Coherent, StoreOk, Durable, Serializable, IndexOf, Holds, HasBase, Decoded, Processed, ProcessorIndex;
    var s := w.hist[h];
    IndexAccepted(wide, w.cfg, w.objs, s);
    ObjectAt(w.cfg, w.objs, s);
    ProcessedIs(wide, w.objs, Base(s), topic, partition);
  }

  lemma IndexAccepted(wide: bool, cfg: Config, objs: Objects, s: Stored)
    requires StoredOk(s) && Holds(cfg, objs, s)
    ensures Base(s) in objs.index <==> s.indexed
    ensures Base(s) in objs.index ==>
              ProcessorIndex(wide, objs.index[Base(s)]) == Ok(IndexOf(cfg.interval, s.batches).entries)
  {
    hide Serializable, IndexOf, Footed, ParsedIndex, SqlIndex, RestoredRange, RangeOf, Holds;
    StoredFooterParses(cfg, objs, s);
    if Base(s) in objs.index { IndexParsersAgree(objs.index[Base(s)]); }
  }

  lemma ProcessedIs(wide: bool, objs: Objects, base: int, topic: bytes, partition: int)
    requires base in objs.data && (base in objs.index ==> ProcessorIndex(wide, objs.index[base]).Ok?)
    ensures Processed(wide, objs, base, topic, partition)
         == if base in objs.index then Decoded(wide, objs, base, topic, partition) else Err(NotFound)
  {
    hide DecodeSegment, ProcessorIndex;
  }

  /** In every state of every run, every segment object decodes; its offsets rise within the range
      its footer gives; and all offsets of one object lie below all offsets of any later one. A
      processor reads it, unless its index object is missing. */
  lemma DecodedInOrder(wide: bool, cfg: Config, actions: seq<Action>, states: seq<World>, i: nat, base: int,
                       topic: bytes, partition: int)
    requires IsRun(cfg, actions, states) && i < |states| && base in states[i].objs.data
    requires forall j :: 0 <= j < i ==> SendsFrame(wide, actions[j])
    ensures var objs := states[i].objs;
            var d := Decoded(wide, objs, base, topic, partition);
            && d.Ok? && Increasing(d.value)
            && Footed(objs, base) && Within(d.value, base, RestoredRange(objs, base).lastOffset)
            && (forall later :: later in objs.data && base < later ==> RestoredRange(objs, base).lastOffset < later)
            && Processed(wide, objs, base, topic, partition) == if base in objs.index then d else Err(NotFound)
  {
    hide Inv, HistFramed, Decoded, Increasing, Within, Footed, Processed;
    RunFramed(wide, cfg, actions, states, i);
    var k := ObjectDecodes(wide, states[i], base, topic, partition);
    StoredProcesses(wide, states[i], k, topic, partition);
    LaterObjects(states[i], k);
  }

  lemma LaterObjects(w: World, k: nat)
    requires Inv(w) && k < |w.hist|
    ensures StoredOk(w.hist[k])
    ensures forall later :: later in w.objs.data && Base(w.hist[k]) < later ==> Last(w.hist[k]) < later
  {
    hide LogOk, Coherent, StoreOk, Durable, Serializable, Holds;
    forall later | later in w.objs.data && Base(w.hist[k]) < later ensures Last(w.hist[k]) < later {
      assert HasBase(w.hist, later);
      var l :| 0 <= l < |w.hist| && w.hist[l].batches != [] && Base(w.hist[l]) == later;
      if l < k { FirstNotLast(w.hist[l]); }
    }
  }

  /** A record of a run of batches is a record of one of them. */
  lemma {:induction false} RecordFrom(batches: seq<RecordBatch>, cs: seq<Content>, k: nat, topic: bytes,
                                      partition: int) returns (j: nat, n: nat)
    requires |cs| == |batches| && k < |AllRecords(batches, cs, topic, partition)|
    ensures j < |batches| && n < |cs[j].entries|
    ensures AllRecords(batches, cs, topic, partition)[k]
         == RecordOf(cs[j].entries[n], batches[j].baseOffset, cs[j].timestamp, topic, partition)
  {
    hide RecordOf;
    var first := RecordsOf(cs[0].entries, batches[0].baseOffset, cs[0].timestamp, topic, partition);
    if k < |first| {
      j, n := 0, k;
    } else {
      var j', n' := RecordFrom(batches[1..], cs[1..], k - |first|, topic, partition);
      j, n := j' + 1, n';
    }
  }

  /** Nothing but what was appended: in every state of every run each record decoded from any segment
      object is a record of a batch that an append of the run numbered, acknowledged or not, and its
      offset lies within that batch, which is the range AppendBatch answers (AppendsRange). */
  lemma DecodedWasAppended(wide: bool, cfg: Config, actions: seq<Action>, states: seq<World>, i: nat, base: int, k: nat,
                           topic: bytes, partition: int) returns (p: nat, b: RecordBatch, e: Entry, timestamp: int)
    requires IsRun(cfg, actions, states) && i < |states| && base in states[i].objs.data
    requires forall j :: 0 <= j < i ==> SendsFrame(wide, actions[j])
    requires var d := Decoded(wide, states[i].objs, base, topic, partition); d.Ok? && k < |d.value|
    ensures p < i && Appends(states[p], actions[p], b)
    ensures exists c :: Frames(wide, b, c) && c.timestamp == timestamp && e in c.entries
    ensures var r := Decoded(wide, states[i].objs, base, topic, partition).value[k];
            Shows(r, e, b.baseOffset, timestamp, topic, partition) && b.baseOffset <= r.offset <= b.LastOffset()
  {
    hide Shows, Inv, HistFramed, Appends, Frames, Decoded, RecordOf, Step, Legal, SendsFrame, AllIn;
    RunFramed(wide, cfg, actions, states, i);
    RunAppended(cfg, actions, states, i);
    var h, j, n := StoredRecord(wide, states[i], base, k, topic, partition);
    b := states[i].hist[h].batches[j];
    var c := ContentOf(wide, b);
    e, timestamp := c.entries[n], c.timestamp;
    RecordShows(e, b.baseOffset, timestamp, topic, partition);
    BatchIn(states[i].hist, Appended(actions, states, i), h, j);
    p :| 0 <= p < i && Appends(states[p], actions[p], b);
  }

  lemma BatchIn(hist: seq<Stored>, known: iset<RecordBatch>, h: nat, j: nat)
    requires HistIn(hist, known) && h < |hist| && j < |hist[h].batches|
    ensures hist[h].batches[j] in known
  {
  }

  /** Where in the history a decoded record comes from. */
  lemma StoredRecord(wide: bool, w: World, base: int, k: nat, topic: bytes, partition: int)
    returns (h: nat, j: nat, n: nat)
    requires Inv(w) && HistFramed(wide, w.hist) && base in w.objs.data
    requires var d := Decoded(wide, w.objs, base, topic, partition); d.Ok? && k < |d.value|
    ensures h < |w.hist| && j < |w.hist[h].batches| && Framed(wide, w.hist[h].batches[j])
    ensures var b := w.hist[h].batches[j];
            var c := ContentOf(wide, b);
            var r := Decoded(wide, w.objs, base, topic, partition).value[k];
            && n < |c.entries| && r == RecordOf(c.entries[n], b.baseOffset, c.timestamp, topic, partition)
            && b.baseOffset <= r.offset <= b.LastOffset()
  {
    hide LogOk, Coherent, StoreOk, Durable, DecodeSegment, Serializable, Holds, Frames, AllRecords, Increasing,
         RecordOf;
    assert HasBase(w.hist, base);
    h :| 0 <= h < |w.hist| && w.hist[h].batches != [] && Base(w.hist[h]) == base;
    var s := w.hist[h];
    ObjectAt(w.cfg, w.objs, s);
    StoredDecodes(wide, w.cfg, w.objs, s, topic, partition);
    var cs := ContentsOf(wide, s.batches);
    j, n := RecordFrom(s.batches, cs, k, topic, partition);
    WithinSegment(s, j);
    BatchOffsets(wide, s.batches[j], cs[j], topic, partition);
  }

  /** A batch's records sit together among the records of the run of batches it is in. */
  lemma {:induction false} RecordsAt(batches: seq<RecordBatch>, cs: seq<Content>, k: nat, topic: bytes, partition: int)
    returns (p: nat)
    requires |cs| == |batches| && k < |batches|
    ensures var all := AllRecords(batches, cs, topic, partition);
            var mine := RecordsOf(cs[k].entries, batches[k].baseOffset, cs[k].timestamp, topic, partition);
            p + |mine| <= |all| && all[p..p + |mine|] == mine
  {
    hide RecordsOf;
    var first := RecordsOf(cs[0].entries, batches[0].baseOffset, cs[0].timestamp, topic, partition);
    if k == 0 {
      p := 0;
    } else {
      var q := RecordsAt(batches[1..], cs[1..], k - 1, topic, partition);
      p := |first| + q;
      var more := AllRecords(batches[1..], cs[1..], topic, partition);
      forall a, b | 0 <= a <= b <= |more| ensures (first + more)[|first| + a..|first| + b] == more[a..b] {
      }
    }
  }

  /** End to end. What a producer put into a batch that was acknowledged is decoded, whole and in
      order and at the offsets it was given, by either processor from the index and the segment object
      that cover the batch, in every later state, whatever failed or crashed in between. */
  lemma ProducedIsDecoded(wide: bool, cfg: Config, actions: seq<Action>, states: seq<World>, i: nat, j: nat,
                          b: RecordBatch, c: Content, topic: bytes, partition: int) returns (base: int, p: nat)
    requires IsRun(cfg, actions, states) && i <= j < |states| && b in states[i].acked
    requires forall k :: 0 <= k < j ==> SendsFrame(wide, actions[k])
    requires Frames(wide, b, c)
    ensures base in states[j].objs.data && Covers(states[j].objs, base, b.baseOffset)
    ensures var d := Processed(wide, states[j].objs, base, topic, partition);
            && d.Ok? && p + |c.entries| <= |d.value|
            && (forall n :: 0 <= n < |c.entries| ==>
                  && Shows(d.value[p + n], c.entries[n], b.baseOffset, c.timestamp, topic, partition)
                  && d.value[p + n].offset == b.baseOffset + c.entries[n].offsetDelta)
            && Increasing(d.value[p..p + |c.entries|])
            && Within(d.value[p..p + |c.entries|], b.baseOffset, b.LastOffset())
  {
    hide Inv, Decoded, Processed, HistFramed, Frames, Increasing, Within, Covers, SendsFrame, RecordOf, Shows;
    AckedGrows(cfg, actions, states, i, j);
    RunFramed(wide, cfg, actions, states, j);
    var n := AckedStored(states[j], b);
    base := Base(states[j].hist[n]);
    p := StoredContains(wide, states[j], n, b, c, topic, partition);
    StoredProcesses(wide, states[j], n, topic, partition);
    var mine := RecordsOf(c.entries, b.baseOffset, c.timestamp, topic, partition);
    var d := Processed(wide, states[j].objs, base, topic, partition);
    forall k | 0 <= k < |c.entries|
      ensures Shows(d.value[p + k], c.entries[k], b.baseOffset, c.timestamp, topic, partition)
      ensures d.value[p + k].offset == b.baseOffset + c.entries[k].offsetDelta
    {
      assert d.value[p + k] == d.value[p..p + |mine|][k] == mine[k];
      RecordShows(c.entries[k], b.baseOffset, c.timestamp, topic, partition);
      OffsetFits(wide, states[j], n, b, c, mine[k], k, topic, partition);
    }
  }

  lemma OffsetFits(wide: bool, w: World, n: nat, b: RecordBatch, c: Content, r: Record, k: nat, topic: bytes,
                   partition: int)
    requires Inv(w) && n < |w.hist| && b in w.hist[n].batches && Frames(wide, b, c) && k < |c.entries|
    requires Shows(r, c.entries[k], b.baseOffset, c.timestamp, topic, partition)
    ensures r.offset == b.baseOffset + c.entries[k].offsetDelta
  {
    hide LogOk, Coherent, StoreOk, Durable, Serializable, Holds, HasBase, IsFrame, AllReadable;
    var s := w.hist[n];
    var m :| 0 <= m < |s.batches| && s.batches[m] == b;
    WithinSegment(s, m);
    BelowDurableEnd(w.hist, n);
    Int64Fits(r.offset, b.baseOffset + c.entries[k].offsetDelta);
  }

  lemma AckedStored(w: World, b: RecordBatch) returns (n: nat)
    requires Inv(w) && b in w.acked
    ensures n < |w.hist| && b in w.hist[n].batches && w.hist[n].batches != [] && w.hist[n].indexed
  {
    hide ObjsOk, LogOk, Coherent, StoreOk;
    assert Durable(b, w.log.Some?, w.hist);
    n :| 0 <= n < |w.hist| && b in w.hist[n].batches && w.hist[n].indexed;
  }

  lemma StoredContains(wide: bool, w: World, n: nat, b: RecordBatch, c: Content, topic: bytes, partition: int)
    returns (p: nat)
    requires Inv(w) && HistFramed(wide, w.hist) && n < |w.hist| && b in w.hist[n].batches && w.hist[n].batches != []
             && Frames(wide, b, c)
    ensures Base(w.hist[n]) in w.objs.data && Covers(w.objs, Base(w.hist[n]), b.baseOffset)
    ensures var d := Decoded(wide, w.objs, Base(w.hist[n]), topic, partition);
            var mine := RecordsOf(c.entries, b.baseOffset, c.timestamp, topic, partition);
            && d.Ok? && p + |mine| <= |d.value| && d.value[p..p + |mine|] == mine
            && Increasing(mine) && Within(mine, b.baseOffset, b.LastOffset())
  {
    hide LogOk, Coherent, StoreOk, Durable, DecodeSegment, Increasing, Within, Serializable, Holds, Frames, Framed,
         RecordsOf, AllRecords, Covers;
    var s := w.hist[n];
    var k :| 0 <= k < |s.batches| && s.batches[k] == b;
    WithinSegment(s, k);
    ObjectAt(w.cfg, w.objs, s);
    CoveringSegment(w.cfg, w.objs, w.hist, n, b.baseOffset);
    StoredDecodes(wide, w.cfg, w.objs, s, topic, partition);
    var cs := ContentsOf(wide, s.batches);
    SameContent(wide, b, c, cs[k]);
    p := RecordsAt(s.batches, cs, k, topic, partition);
    BatchOffsets(wide, b, c, topic, partition);
  }

  lemma SameContent(wide: bool, b: RecordBatch, c: Content, d: Content)
    requires Frames(wide, b, c) && Frames(wide, b, d)
    ensures c == d
  {
    hide IsFrame, AllReadable, DeltasFit;
    ContentUnique(wide, b.data, c, d);
  }

  /** An acknowledged produce adds a batch that holds what was sent. */
  lemma AckedHoldsProduced(wide: bool, w: World, a: Action, c: Content)
    requires Inv(w) && Legal(w, a) && a.Produce? && Step(w, a).acked != w.acked
    requires NewRecordBatchFromBytes(a.records).Ok? ==> Frames(wide, NewRecordBatchFromBytes(a.records).value, c)
    ensures var acked := Step(w, a).acked;
            acked != [] && acked[..|acked| - 1] == w.acked && Frames(wide, acked[|acked| - 1], c)
  {
    hide Frames, Step, ObjsOk, Coherent, StoreOk, Patched;
    StepAcks(w, a);
    PatchedFrames(wide, NewRecordBatchFromBytes(a.records).value, c, w.log.value.nextOffset);
  }
}
