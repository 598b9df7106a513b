/** The partition machine keeps its invariant over every run. */
module LogRuns {
  import opened Bytes
  import opened Wrappers
  import opened RecordBatches
  import opened SparseIndex
  import opened Segments
  import opened ObjectStore
  import opened PartitionLogs
  import opened LogMachine
  import opened LogInvariant
  import opened LogSteps
  import opened LogRecovery
  import LRU = SegmentCache

  // ---------------------------------------------------------------------- reopening

  ghost function DurableEnd(hist: seq<Stored>): int
    requires NonEmpty(hist)
  {
    if hist == [] then 0 else Last(hist[|hist| - 1]) + 1
  }

  lemma BelowDurableEnd(hist: seq<Stored>, i: nat)
    requires HistOk(hist) && i < |hist|
    ensures 0 <= Base(hist[i]) <= Last(hist[i]) < DurableEnd(hist) < TWO63
  {
    FirstNotLast(hist[i]);
    FirstNotLast(hist[|hist| - 1]);
  }

  lemma HistAllLive(hist: seq<Stored>)
    requires HistOk(hist)
    ensures HistOk(AllLive(hist)) && DurableEnd(AllLive(hist)) == DurableEnd(hist)
  {
    hide Serializable;
    var h := AllLive(hist);
    forall i | 0 <= i < |h| ensures StoredOk(h[i]) { assert StoredOk(hist[i]); }
  }

  lemma ObjsAllLive(cfg: Config, objs: Objects, hist: seq<Stored>)
    requires ObjsOk(cfg, objs, hist)
    ensures ObjsOk(cfg, objs, AllLive(hist))
  {
    hide SegmentBytes, IndexBytes, IndexOf, Serializable;
    HistAllLive(hist);
    var h := AllLive(hist);
    forall i | 0 <= i < |h| ensures Holds(cfg, objs, h[i]) { assert Holds(cfg, objs, hist[i]); }
    forall b | b in objs.data ensures HasBase(h, b) {
      assert HasBase(hist, b);
      var i :| 0 <= i < |hist| && hist[i].batches != [] && Base(hist[i]) == b;
      assert Base(h[i]) == b;
    }
  }

  /** A recovered log continues right after what is durable. */
  lemma RecoveredLogOk(cfg: Config, hist: seq<Stored>, storeNext: int, now: int)
    requires HistOk(hist) && AllIndexed(hist) && StoreOk(storeNext, hist)
    ensures var r := Recovered(cfg, hist, NewLog(storeNext, now));
            && r.Ok? && LogOk(cfg, r.value.0, AllLive(hist))
            && r.value.0.nextOffset == DurableEnd(hist) && r.value.0.buffer.batches == []
            && (r.value.1 >= storeNext ==> r.value.1 + 1 == DurableEnd(hist))
  {
    hide LiveRanges, LiveIndex, BufferOk, FirstFree, Serializable;
    HistAllLive(hist);
    var r := Recovered(cfg, hist, NewLog(storeNext, now));
    var log, h := r.value.0, AllLive(hist);
    if hist == [] {
      LiveNothing(cfg);
      assert h == [];
    } else {
      BelowDurableEnd(hist, 0);
    }
    EmptyBufferOk(log);
    forall i | 0 <= i < |h| ensures Last(h[i]) < FirstFree(log) { BelowDurableEnd(hist, i); }
  }

  lemma EmptyBufferOk(log: Log)
    requires log.buffer.batches == [] && log.buffer.sizeBytes == 0 && log.buffer.messageCount == 0
    requires 0 <= log.nextOffset < TWO63
    ensures BufferOk(log) && FirstFree(log) == log.nextOffset
  {
    assert Concat([]) == [];
  }

  lemma LiveNothing(cfg: Config)
    ensures LiveRanges([]) == [] && LiveIndex(cfg, []) == map[]
  {
  }

  lemma ObjsHist(cfg: Config, objs: Objects, hist: seq<Stored>)
    requires ObjsOk(cfg, objs, hist)
    ensures HistOk(hist) && NonEmpty(hist)
  {
  }

  lemma OpenKeeps(w: World, a: Action)
    requires Inv(w) && w.log.None? && a.Open? && Lists(a.listing, w.objs)
    ensures Inv(DoOpen(w, a))
  {
    hide ObjsOk, LogOk, Coherent, Restored, HistOk, Recovered;
    ObjsHist(w.cfg, w.objs, w.hist);
    RestoredExactly(w.cfg, w.objs, w.hist, a.listing, NewLog(w.storeNext, a.now));
    var r := Restored(NewLog(w.storeNext, a.now), w.objs, a.listing);
    RefusedUnlessIndexed(w.cfg, w.hist, NewLog(w.storeNext, a.now));
    if a.readable && a.reachable && r.Ok? {
      RecoveredLogOk(w.cfg, w.hist, w.storeNext, a.now);
      ObjsAllLive(w.cfg, w.objs, w.hist);
      OpenStore(w.hist, w.storeNext, r.value.1, a.write);
      forall b | b in w.acked ensures Durable(b, true, AllLive(w.hist)) {
        var i :| 0 <= i < |w.hist| && b in w.hist[i].batches && w.hist[i].indexed;
        assert AllLive(w.hist)[i] == w.hist[i].(live := true);
      }
    }
  }

  lemma RefusedUnlessIndexed(cfg: Config, hist: seq<Stored>, log: Log)
    requires NonEmpty(hist)
    ensures Recovered(cfg, hist, log).Ok? <==> AllIndexed(hist)
  {
  }

  lemma OpenStore(hist: seq<Stored>, storeNext: int, last: int, write: Write)
    requires HistOk(hist) && StoreOk(storeNext, hist)
    requires last >= storeNext ==> last + 1 == DurableEnd(hist)
    ensures HistOk(AllLive(hist))
    ensures StoreOk(if last >= storeNext then UpdateOffsets(storeNext, Some(last), write) else storeNext, AllLive(hist))
  {
    HistAllLive(hist);
    if hist != [] { BelowDurableEnd(hist, 0); }
  }

  // -------------------------------------------------------------------- every step

  lemma CacheStepKeeps(w: World, a: Action)
    requires Inv(w) && Legal(w, a) && (a.Fetch? || a.Prefetch? || a.OtherCacheUse?)
    ensures Inv(Step(w, a))
  {
    hide ObjsOk, LogOk, StoreOk, Durable, LRU.Put, LRU.Got;
    match a
    case Fetch(offset, maxBytes, available) =>
      if w.log.Some? { ReadKeepsCoherent(w.cfg, w.log.value, w.objs, w.cache, offset, maxBytes, available); }
    case Prefetch(base) =>
      if base in w.objs.data {
        forall b | w.cfg.CacheKey(b) == w.cfg.CacheKey(base) ensures b == base {
          LRU.MakeKeyInjective(w.cfg.topicKey, w.cfg.partition, b, w.cfg.topicKey, w.cfg.partition, base);
        }
        CoherentPut(w.cfg, w.cache, w.objs, w.cfg.CacheKey(base), w.objs.data[base]);
      }
    case OtherCacheUse(key, data) =>
      CoherentPut(w.cfg, w.cache, w.objs, key, if data.Some? then data.value else []);
  }

  lemma CrashKeeps(w: World)
    requires Inv(w)
    ensures Inv(w.(log := None, cache := []))
  {
    hide ObjsOk, LogOk, StoreOk;
    forall b | b in w.acked ensures Durable(b, false, w.hist) {
      var i :| 0 <= i < |w.hist| && b in w.hist[i].batches && w.hist[i].indexed && (w.log.Some? ==> w.hist[i].live);
    }
  }

  lemma StepKeeps(w: World, a: Action)
    requires Inv(w) && Legal(w, a)
    ensures Inv(Step(w, a))
  {
    hide Inv, Legal, DoProduce, DoOpen;
    match a
    case Produce(_, _, _, _, _, _) => if w.log.Some? { ProduceKeeps(w, w.log.value, a); }
    case Open(_, _, listing, _, _) =>
      if w.log.None? {
        assert Lists(listing, w.objs) by { LegalOpen(w, a); }
        OpenKeeps(w, a);
      }
    case Crash => CrashKeeps(w);
    case Fetch(_, _, _) => CacheStepKeeps(w, a);
    case Prefetch(_) => CacheStepKeeps(w, a);
    case OtherCacheUse(_, _) => CacheStepKeeps(w, a);
  }

  lemma LegalOpen(w: World, a: Action)
    requires a.Open? && Legal(w, a)
    ensures Lists(a.listing, w.objs)
  {
  }

  lemma InitOk(cfg: Config)
    ensures Inv(Init(cfg))
  {
  }

  /** Every state of every run satisfies the invariant. */
  lemma {:induction false} RunKeeps(cfg: Config, actions: seq<Action>, states: seq<World>, i: nat)
    requires IsRun(cfg, actions, states) && i < |states|
    ensures Inv(states[i])
  {
    hide Inv, Step, Legal;
    if i == 0 {
      InitOk(cfg);
    } else {
      RunKeeps(cfg, actions, states, i - 1);
      StepKeeps(states[i - 1], actions[i - 1]);
    }
  }
}
