/** The health window over object-store requests (pkg/broker/s3_health.go): a bounded list that is
    trimmed at every call, against a specification over the whole history. Times and durations are
    nanoseconds; the error rate is a real number. */
module S3Health {
  import opened Durations

  datatype State = Healthy | Degraded | Unavailable

  datatype Config = Config(window: int, latencyWarn: int, latencyCrit: int, errorWarn: real, errorCrit: real,
                           maxSamples: int)

  datatype Sample = Sample(ts: int, op: string, latency: int, failed: bool)

  datatype Monitor = Monitor(samples: seq<Sample>, state: State, since: int, avgLatency: int, errorRate: real)

  /** The defaults fill in what is not positive. */
  function WithDefaults(cfg: Config): (r: Config)
    ensures Usable(r)
  {
    Config(if cfg.window <= 0 then 60 * SECOND else cfg.window,
           if cfg.latencyWarn <= 0 then 500 * MILLISECOND else cfg.latencyWarn,
           if cfg.latencyCrit <= 0 then 3 * SECOND else cfg.latencyCrit,
           if cfg.errorWarn <= 0.0 then 0.2 else cfg.errorWarn,
           if cfg.errorCrit <= 0.0 then 0.6 else cfg.errorCrit,
           if cfg.maxSamples <= 0 then 512 else cfg.maxSamples)
  }

  predicate Usable(cfg: Config) {
    && cfg.window > 0 && cfg.maxSamples > 0
    && cfg.latencyWarn > 0 && cfg.latencyCrit > 0 && cfg.errorWarn > 0.0 && cfg.errorCrit > 0.0
  }

  // ---------------------------------------------------------------- specification

  /** How many samples are younger than the cutoff. */
  function Count(samples: seq<Sample>, cutoff: int): (n: nat)
    ensures n <= |samples|
  {
    if samples == [] then 0
    else (if samples[0].ts > cutoff then 1 else 0) + Count(samples[1..], cutoff)
  }

  function Min(a: int, b: int): int { if a < b then a else b }

  function LastOf(samples: seq<Sample>, n: nat): seq<Sample>
    requires n <= |samples|
  {
    samples[|samples| - n..]
  }

  /** The last samples of a history that are in the window, at most maxSamples of them. */
  function Window(cfg: Config, history: seq<Sample>, now: int): seq<Sample>
    requires Usable(cfg)
  {
    LastOf(history, Min(cfg.maxSamples, Count(history, now - cfg.window)))
  }

  function TotalLatency(samples: seq<Sample>): int {
    if samples == [] then 0 else TotalLatency(samples[..|samples| - 1]) + samples[|samples| - 1].latency
  }

  function Failures(samples: seq<Sample>): nat {
    if samples == [] then 0 else Failures(samples[..|samples| - 1]) + (if samples[|samples| - 1].failed then 1 else 0)
  }

  /** Go's integer division truncates toward zero. */
  function Truncated(a: int, n: nat): int
    requires n > 0
  {
    if a >= 0 then a / n else -(-a / n)
  }

  function Average(samples: seq<Sample>): int {
    if samples == [] then 0 else Truncated(TotalLatency(samples), |samples|)
  }

  function ErrorRate(samples: seq<Sample>): (r: real)
    ensures 0.0 <= r
  {
    if samples == [] then 0.0 else (Failures(samples) as real) / (|samples| as real)
  }

  function StateFor(cfg: Config, samples: seq<Sample>): State {
    if samples == [] then Healthy
    else if Average(samples) >= cfg.latencyCrit || ErrorRate(samples) >= cfg.errorCrit then Unavailable
    else if Average(samples) >= cfg.latencyWarn || ErrorRate(samples) >= cfg.errorWarn then Degraded
    else Healthy
  }

  /** The samples reach a limit: their latencies add up to at least the limit for each, or their
      failures to at least the rate for each. */
  ghost predicate Reaches(samples: seq<Sample>, latency: int, rate: real) {
    || TotalLatency(samples) >= latency * |samples|
    || Failures(samples) as real >= rate * |samples| as real
  }

  lemma AverageReaches(total: int, n: nat, limit: int)
    requires n > 0 && limit > 0
    ensures Truncated(total, n) >= limit <==> total >= limit * n
  {
    if total >= 0 {
      var q, r := total / n, total % n;
      assert total == q * n + r && 0 <= r < n;
      if q >= limit {
        assert q * n >= limit * n;
      } else {
        assert (q + 1) * n <= limit * n;
      }
    } else {
      assert limit * n > 0;
    }
  }

  lemma RateReaches(failures: nat, n: nat, rate: real)
    requires n > 0
    ensures (failures as real) / (n as real) >= rate <==> failures as real >= rate * n as real
  {
    var q := (failures as real) / (n as real);
    assert q * n as real == failures as real;
  }

  /** What the state says about the samples it is computed from, without averages and rates. */
  lemma StateMeans(cfg: Config, samples: seq<Sample>)
    requires Usable(cfg) && samples != []
    ensures StateFor(cfg, samples) == Unavailable <==> Reaches(samples, cfg.latencyCrit, cfg.errorCrit)
    ensures StateFor(cfg, samples) == Degraded <==>
              Reaches(samples, cfg.latencyWarn, cfg.errorWarn) && !Reaches(samples, cfg.latencyCrit, cfg.errorCrit)
    ensures StateFor(cfg, samples) == Healthy <==>
              !Reaches(samples, cfg.latencyWarn, cfg.errorWarn) && !Reaches(samples, cfg.latencyCrit, cfg.errorCrit)
  {
    hide TotalLatency, Failures, Truncated;
    AverageReaches(TotalLatency(samples), |samples|, cfg.latencyCrit);
    AverageReaches(TotalLatency(samples), |samples|, cfg.latencyWarn);
    RateReaches(Failures(samples), |samples|, cfg.errorCrit);
    RateReaches(Failures(samples), |samples|, cfg.errorWarn);
  }

  function Severity(s: State): nat {
    match s
    case Healthy => 0
    case Degraded => 1
    case Unavailable => 2
  }

  lemma {:induction false} SumsUpdate(samples: seq<Sample>, i: nat, s: Sample)
    requires i < |samples|
    ensures TotalLatency(samples[i := s]) == TotalLatency(samples) - samples[i].latency + s.latency
    ensures Failures(samples[i := s])
         == Failures(samples) - (if samples[i].failed then 1 else 0) + (if s.failed then 1 else 0)
  {
    var n := |samples| - 1;
    if i < n {
      SumsUpdate(samples[..n], i, s);
      assert samples[i := s][..n] == samples[..n][i := s];
    } else {
      assert samples[i := s][..n] == samples[..n];
    }
  }

  /** The state never improves when a sample gets slower or fails. */
  lemma WorseSample(cfg: Config, samples: seq<Sample>, i: nat, s: Sample)
    requires Usable(cfg) && i < |samples| && s.latency >= samples[i].latency && (samples[i].failed ==> s.failed)
    ensures Severity(StateFor(cfg, samples[i := s])) >= Severity(StateFor(cfg, samples))
  {
    hide TotalLatency, Failures, StateFor;
    SumsUpdate(samples, i, s);
    StateMeans(cfg, samples);
    StateMeans(cfg, samples[i := s]);
  }

  // -------------------------------------------------------------------- the monitor

  /** Old samples are dropped from the front, up to the first young one. */
  function Trimmed(samples: seq<Sample>, cutoff: int): seq<Sample> {
    if samples == [] || samples[0].ts > cutoff then samples else Trimmed(samples[1..], cutoff)
  }

  function Capped(samples: seq<Sample>, maxSamples: int): seq<Sample>
    requires maxSamples > 0
  {
    if |samples| > maxSamples then samples[|samples| - maxSamples..] else samples
  }

  function Refreshed(cfg: Config, m: Monitor, now: int): Monitor {
    var samples := Trimmed(m.samples, now - cfg.window);
    var next := StateFor(cfg, samples);
    Monitor(samples, next, if next == m.state then m.since else now, Average(samples), ErrorRate(samples))
  }

  datatype Call = Record(now: int, op: string, latency: int, failed: bool) | Look(now: int)

  function Step(cfg: Config, m: Monitor, c: Call): Monitor
    requires Usable(cfg)
  {
    match c
    case Record(now, op, latency, failed) =>
      Refreshed(cfg, m.(samples := Capped(m.samples + [Sample(now, op, latency, failed)], cfg.maxSamples)), now)
    case Look(now) => Refreshed(cfg, m, now)
  }

  function New(created: int): Monitor {
    Monitor([], Healthy, created, 0, 0.0)
  }

  /** The monitor after the calls, and everything that was ever recorded. */
  function After(cfg: Config, created: int, calls: seq<Call>): Monitor
    requires Usable(cfg)
  {
    if calls == [] then New(created) else Step(cfg, After(cfg, created, calls[..|calls| - 1]), calls[|calls| - 1])
  }

  function History(calls: seq<Call>): seq<Sample> {
    if calls == [] then []
    else
      var c := calls[|calls| - 1];
      History(calls[..|calls| - 1]) + (if c.Record? then [Sample(c.now, c.op, c.latency, c.failed)] else [])
  }

  function Now(created: int, calls: seq<Call>): int {
    if calls == [] then created else calls[|calls| - 1].now
  }

  /** The clock does not run backwards. */
  predicate Clocked(created: int, calls: seq<Call>) {
    calls != [] ==>
      && Clocked(created, calls[..|calls| - 1])
      && Now(created, calls[..|calls| - 1]) <= calls[|calls| - 1].now
  }

  // ------------------------------------------------------------------------ proofs

  predicate Sorted(samples: seq<Sample>) {
    forall i, j :: 0 <= i <= j < |samples| ==> samples[i].ts <= samples[j].ts
  }

  lemma {:induction false} AllYoung(samples: seq<Sample>, cutoff: int)
    requires forall i :: 0 <= i < |samples| ==> samples[i].ts > cutoff
    ensures Count(samples, cutoff) == |samples|
  {
    if samples != [] { AllYoung(samples[1..], cutoff); }
  }

  /** Trimming a sorted list keeps its young suffix. */
  lemma {:induction false} TrimmedSuffix(samples: seq<Sample>, cutoff: int)
    requires Sorted(samples)
    ensures Trimmed(samples, cutoff) == LastOf(samples, Count(samples, cutoff))
  {
    if samples != [] {
      if samples[0].ts > cutoff {
        AllYoung(samples, cutoff);
      } else {
        TrimmedSuffix(samples[1..], cutoff);
      }
    }
  }

  lemma {:induction false} CountLast(history: seq<Sample>, n: nat, cutoff: int)
    requires Sorted(history) && n <= |history|
    ensures Count(LastOf(history, n), cutoff) == Min(n, Count(history, cutoff))
  {
    if n < |history| {
      CountLast(history[1..], n, cutoff);
      assert LastOf(history[1..], n) == LastOf(history, n);
      if history[0].ts > cutoff { AllYoung(history[1..], cutoff); }
    } else {
      assert LastOf(history, n) == history;
    }
  }

  /** The young part of a suffix is the shorter of the suffix and the young part of the whole. */
  lemma TrimmedLast(history: seq<Sample>, n: nat, cutoff: int)
    requires Sorted(history) && n <= |history|
    ensures Trimmed(LastOf(history, n), cutoff) == LastOf(history, Min(n, Count(history, cutoff)))
  {
    TrimmedSuffix(LastOf(history, n), cutoff);
    CountLast(history, n, cutoff);
  }

  lemma {:induction false} CountFalls(history: seq<Sample>, a: int, b: int)
    requires a <= b
    ensures Count(history, b) <= Count(history, a)
  {
    if history != [] { CountFalls(history[1..], a, b); }
  }

  lemma {:induction false} CountSnoc(history: seq<Sample>, s: Sample, cutoff: int)
    ensures Count(history + [s], cutoff) == Count(history, cutoff) + (if s.ts > cutoff then 1 else 0)
  {
    if history == [] {
      assert history + [s] == [s];
    } else {
      CountSnoc(history[1..], s, cutoff);
      assert (history + [s])[1..] == history[1..] + [s];
    }
  }

  lemma {:induction false} HistorySorted(created: int, calls: seq<Call>)
    requires Clocked(created, calls)
    ensures Sorted(History(calls))
    ensures forall i :: 0 <= i < |History(calls)| ==> History(calls)[i].ts <= Now(created, calls)
  {
    if calls != [] { HistorySorted(created, calls[..|calls| - 1]); }
  }

  /** A later look at the window trims it to the window of that time. */
  lemma WindowLater(cfg: Config, history: seq<Sample>, then_: int, now: int)
    requires Usable(cfg) && Sorted(history) && then_ <= now
    ensures Trimmed(Window(cfg, history, then_), now - cfg.window) == Window(cfg, history, now)
  {
    hide Count, LastOf, Trimmed, Sorted;
    CountFalls(history, then_ - cfg.window, now - cfg.window);
    TrimmedLast(history, Min(cfg.maxSamples, Count(history, then_ - cfg.window)), now - cfg.window);
  }

  lemma CappedLast(history: seq<Sample>, n: nat, s: Sample, maxSamples: int)
    requires maxSamples > 0 && n <= |history|
    ensures Capped(LastOf(history, n) + [s], maxSamples) == LastOf(history + [s], Min(maxSamples, n + 1))
  {
    assert LastOf(history, n) + [s] == LastOf(history + [s], n + 1);
  }

  /** Recording one more sample. */
  lemma WindowRecord(cfg: Config, history: seq<Sample>, then_: int, s: Sample)
    requires Usable(cfg) && Sorted(history + [s]) && then_ <= s.ts
    ensures Trimmed(Capped(Window(cfg, history, then_) + [s], cfg.maxSamples), s.ts - cfg.window)
            == Window(cfg, history + [s], s.ts)
  {
    hide Count, LastOf, Trimmed, Capped, Sorted;
    var n := Min(cfg.maxSamples, Count(history, then_ - cfg.window));
    CappedLast(history, n, s, cfg.maxSamples);
    TrimmedLast(history + [s], Min(cfg.maxSamples, n + 1), s.ts - cfg.window);
    CountSnoc(history, s, s.ts - cfg.window);
    CountFalls(history, then_ - cfg.window, s.ts - cfg.window);
  }

  /** After any calls with a clock that does not run backwards, the list is exactly the last
      min(maxSamples, number in window) operations of the whole history, and what the monitor
      reports is the specification of those. */
  lemma {:induction false} WindowExact(cfg: Config, created: int, calls: seq<Call>)
    requires Usable(cfg) && Clocked(created, calls)
    ensures var m := After(cfg, created, calls);
            var window := Window(cfg, History(calls), Now(created, calls));
            && m.samples == window
            && m.state == StateFor(cfg, window) && m.avgLatency == Average(window) && m.errorRate == ErrorRate(window)
  {
    hide Trimmed, Window, Average, ErrorRate, StateFor, Capped, Sorted;
    if calls == [] {
      WindowNothing(cfg, created);
    } else {
      var front, c := calls[..|calls| - 1], calls[|calls| - 1];
      WindowExact(cfg, created, front);
      HistorySorted(created, calls);
      HistorySorted(created, front);
      if c.Record? {
        WindowRecord(cfg, History(front), Now(created, front), Sample(c.now, c.op, c.latency, c.failed));
      } else {
        assert History(calls) == History(front);
        WindowLater(cfg, History(front), Now(created, front), c.now);
      }
    }
  }

  lemma WindowNothing(cfg: Config, now: int)
    requires Usable(cfg)
    ensures Window(cfg, [], now) == [] && StateFor(cfg, []) == Healthy && Average([]) == 0 && ErrorRate([]) == 0.0
  {
  }

  /** `since` is the time of the call that last changed the state (or of creation): the state has
      been the present one after every call from there on. */
  lemma {:induction false} SinceLastChange(cfg: Config, created: int, calls: seq<Call>) returns (k: nat)
    requires Usable(cfg)
    ensures k <= |calls|
    ensures After(cfg, created, calls).since == Now(created, calls[..k])
    ensures forall j :: k <= j <= |calls| ==> After(cfg, created, calls[..j]).state == After(cfg, created, calls).state
    ensures k > 0 ==> After(cfg, created, calls[..k - 1]).state != After(cfg, created, calls).state
  {
    hide Trimmed, StateFor, Average, ErrorRate, Capped;
    assert calls[..|calls|] == calls;
    if calls == [] {
      k := 0;
    } else {
      var front := calls[..|calls| - 1];
      if After(cfg, created, calls).state == After(cfg, created, front).state {
        k := SinceLastChange(cfg, created, front);
        assert front[..k] == calls[..k];
        assert k > 0 ==> front[..k - 1] == calls[..k - 1];
        forall j | k <= j <= |calls| ensures After(cfg, created, calls[..j]).state == After(cfg, created, calls).state {
          if j < |calls| { assert calls[..j] == front[..j]; }
        }
      } else {
        k := |calls|;
      }
    }
  }

  // -------------------------------------------------------------------- the object

  class S3HealthMonitor {
    const cfg: Config
    var samples: seq<Sample>
    var state: State
    var since: int
    var avgLatency: int
    var errorRate: real

    ghost function View(): Monitor
      reads this
    {
      Monitor(samples, state, since, avgLatency, errorRate)
    }

    constructor (cfg: Config, now: int)
      ensures this.cfg == WithDefaults(cfg) && View() == New(now)
    {
      this.cfg := WithDefaults(cfg);
      samples, state, since, avgLatency, errorRate := [], Healthy, now, 0, 0.0;
    }

    method RecordOperation(op: string, latency: int, failed: bool, now: int)
      requires Usable(cfg)
      modifies this
      ensures View() == Step(cfg, old(View()), Record(now, op, latency, failed))
    {
      hide Trimmed, StateFor, Average, ErrorRate;
      samples := samples + [Sample(now, op, latency, failed)];
      if |samples| > cfg.maxSamples {
        samples := samples[|samples| - cfg.maxSamples..];
      }
      Truncate(now);
      Recompute(now);
    }

    method Snapshot(now: int) returns (m: Monitor)
      requires Usable(cfg)
      modifies this
      ensures m == View() == Step(cfg, old(View()), Look(now))
    {
      hide Trimmed, StateFor, Average, ErrorRate;
      Truncate(now);
      Recompute(now);
      return Monitor(samples, state, since, avgLatency, errorRate);
    }

    method Truncate(now: int)
      modifies this`samples
      ensures samples == Trimmed(old(samples), now - cfg.window)
    {
      var cutoff := now - cfg.window;
      var idx := 0;
      while idx < |samples|
        invariant 0 <= idx <= |samples| && samples == old(samples)
        invariant Trimmed(samples, cutoff) == Trimmed(samples[idx..], cutoff)
      {
        if samples[idx].ts > cutoff { break; }
        assert samples[idx..][1..] == samples[idx + 1..];
        idx := idx + 1;
      }
      if 0 < idx < |samples| {
        samples := samples[idx..];
      } else if idx >= |samples| {
        samples := [];
      }
    }

    method Recompute(now: int)
      modifies this`state, this`since, this`avgLatency, this`errorRate
      ensures var next := StateFor(cfg, samples);
              View() == Monitor(samples, next, if next == old(state) then old(since) else now, Average(samples),
                                ErrorRate(samples))
    {
      if |samples| == 0 {
        avgLatency, errorRate := 0, 0.0;
        SetState(now, Healthy);
        return;
      }
      var totalLatency, errorCount := 0, 0;
      for i := 0 to |samples|
        invariant totalLatency == TotalLatency(samples[..i]) && errorCount == Failures(samples[..i])
      {
        totalLatency := totalLatency + samples[i].latency;
        if samples[i].failed { errorCount := errorCount + 1; }
        assert samples[..i + 1][..i] == samples[..i];
      }
      assert samples[..|samples|] == samples;
      avgLatency := Truncated(totalLatency, |samples|);
      errorRate := (errorCount as real) / (|samples| as real);
      var next := Healthy;
      if avgLatency >= cfg.latencyCrit || errorRate >= cfg.errorCrit {
        next := Unavailable;
      } else if avgLatency >= cfg.latencyWarn || errorRate >= cfg.errorWarn {
        next := Degraded;
      }
      SetState(now, next);
    }

    method SetState(now: int, next: State)
      modifies this`state, this`since
      ensures state == next && since == if next == old(state) then old(since) else now
    {
      if next == state { return; }
      state, since := next, now;
    }
  }
}
