/** The join barrier over whole runs: who has called JoinGroup when a rebalance is complete, also
    across crashes and reloads, and exactly when a reload breaks it (pkg/broker/coordinator.go). */
module GroupBarrier {
  import opened Bytes
  import opened Wrappers
  import opened Sorting
  import opened Assignment
  import opened Subscriptions
  import opened Groups
  import opened GroupRecords
  import opened GroupMachine
  import opened GroupInvariant
  import opened GroupRuns
  import opened GroupTheorems
  import opened GroupLives

  // ------------------------------------------------------------- what one step can do

  /** Request `a` is a join that reaches the group, as member `m`. */
  ghost predicate Calls(w: World, a: Action, m: Name) {
    && a.Join? && Loaded(w.cell, a.now, Io(a.fetchOk, a.write, w.cloning)).Ok?
    && m == JoinId(BaseGroup(w, a.now, Io(a.fetchOk, a.write, w.cloning)), a.req, a.freshId)
  }

  ghost function Callers(w: World, a: Action): set<Name> {
    if a.Join? && Loaded(w.cell, a.now, Io(a.fetchOk, a.write, w.cloning)).Ok?
    then {JoinId(BaseGroup(w, a.now, Io(a.fetchOk, a.write, w.cloning)), a.req, a.freshId)}
    else {}
  }

  /** The group that a request on the cell works on: in memory, or as it is loaded, or new. */
  ghost predicate Source(c: Cell, g: Group) {
    if c.mem.Some? then g == c.mem.value
    else if c.rec.Some? then
      && g.generation == c.rec.value.generation && g.members.Keys == c.rec.value.members.Keys
      && forall m :: m in g.members ==> IsJoined(g, m)
    else g == NEW_GROUP
  }

  /** The members a request is about: the caller of a join or a heartbeat. */
  ghost function Touched(w: World, a: Action): set<Name> {
    if a.Beat? then {a.memberId} else Callers(w, a)
  }

  /** A step that leaves `g'` in memory, from `g`, with these callers, about these members. */
  ghost predicate Turns(w: World, w': World, g: Group, g': Group, callers: set<Name>, touched: set<Name>) {
    && w'.cell.mem == Some(g') && Source(w.cell, g) && Preserves(g, g', touched)
    && (w'.cell.rec.None? || Follows(w, g', w'.cell.rec))
    && g'.generation >= g.generation && JoinsOnly(g, g', callers)
    && forall m :: m in callers ==> IsJoined(g', m)
  }

  ghost predicate Moves(w: World, w': World, callers: set<Name>, touched: set<Name>) {
    if w'.cell.mem.None? then w'.cell.rec.None? || w'.cell.rec == w.cell.rec
    else exists g :: Turns(w, w', g, w'.cell.mem.value, callers, touched)
  }

  lemma Loads(w: World, now: int, io: Io)
    requires Inv(w) && io.cloning == w.cloning && Loaded(w.cell, now, io).Ok?
    ensures Source(w.cell, BaseGroup(w, now, io))
  {
    hide RestoreGroupState, Kept, BuildConsumerGroup, GroupOk, Says, RecordSays, Consistent;
    if w.cell.mem.None? && w.cell.rec.Some? {
      var rec := w.cell.rec.value;
      var g :| GroupOk(g) && rec == Kept(BuildConsumerGroup(g), w.cloning);
      RestoreBuilt(g, w.cloning, now);
      RestoredNames(rec, now);
      RestoredGeneration(rec, now);
    }
  }

  lemma Turned(w: World, w': World, g: Group, g': Group, callers: set<Name>, touched: set<Name>)
    requires w'.cell.mem == Some(g') && Source(w.cell, g) && (w'.cell.rec.None? || Follows(w, g', w'.cell.rec))
    requires Evolves(g, g') && JoinsOnly(g, g', callers) && forall m :: m in callers ==> IsJoined(g', m)
    requires Preserves(g, g', touched)
    ensures Moves(w, w', callers, touched)
  {
    hide JoinsOnly, Source, Preserves;
    assert Turns(w, w', g, g', callers, touched);
  }

  /** The group stays, or is loaded, as it is. */
  lemma Stays(w: World, w': World, g: Group, touched: set<Name>)
    requires w'.cell.mem == Some(g) && Source(w.cell, g) && (w'.cell.rec.None? || w'.cell.rec == w.cell.rec)
    requires g.leader in g.members
    ensures Moves(w, w', {}, touched)
  {
    hide Source;
    assert Turns(w, w', g, g, {}, touched);
  }

  lemma JoinMoves(w: World, a: Action)
    requires Inv(w) && a.Join? && Legal(w, a)
    ensures Moves(w, Step(w, a), Callers(w, a), Touched(w, a))
  {
    hide Inv, GroupOk, Persisted, Evolves, JoinsOnly, Joined, Follows, MemberSubscriptions, Source, Moves;
    var io := Io(a.fetchOk, a.write, w.cloning);
    BaseOk(w, a.now, io);
    if Loaded(w.cell, a.now, io).Ok? {
      var g := BaseGroup(w, a.now, io);
      Loads(w, a.now, io);
      JoinOk(g, a.req, a.freshId, a.now);
      var g' := Joined(g, a.req, a.freshId, a.now).0;
      PersistedFollows(w, g', io);
      JoinPreserves(g, a.req, a.freshId, a.now);
      Turned(w, Step(w, a), g, g', Callers(w, a), Touched(w, a));
    } else {
      Unmoved(w, Touched(w, a));
    }
  }

  lemma Unmoved(w: World, touched: set<Name>)
    requires Inv(w)
    ensures Moves(w, w, {}, touched)
  {
    if w.cell.mem.Some? {
      InMemoryOk(w);
      GroupMembers(w.cell.mem.value);
      Stays(w, w, w.cell.mem.value, touched);
    }
  }

  lemma SyncMoves(w: World, a: Action)
    requires Inv(w) && a.Sync? && Legal(w, a)
    ensures Moves(w, Step(w, a), {}, Touched(w, a))
  {
    hide Inv, GroupOk, Persisted, Evolves, JoinsOnly, SyncOutcome, Follows, Source, Moves, EncodeAssignment;
    Unmoved(w, Touched(w, a));
    var io := Io(a.fetchOk, a.write, w.cloning);
    BaseOk(w, a.now, io);
    var found := Loaded(w.cell, a.now, io);
    if found.Ok? && found.value.Some? {
      var g := BaseGroup(w, a.now, io);
      Loads(w, a.now, io);
      SyncOk(g, a.memberId, a.generation, a.topics);
      var g' := SyncOutcome(g, a.memberId, a.generation, a.topics).1;
      FollowsSame(w, g');
      PersistedFollows(w, g', io);
      GroupMembers(g);
      SyncPreserves(g, a.memberId, a.generation, a.topics);
      Turned(w, Step(w, a), g, g', {}, Touched(w, a));
    }
  }

  lemma BeatMoves(w: World, a: Action)
    requires Inv(w) && a.Beat?
    ensures Moves(w, Step(w, a), {}, Touched(w, a))
  {
    hide Inv, GroupOk, Persisted, Evolves, JoinsOnly, Follows, Source, Moves;
    Unmoved(w, Touched(w, a));
    var io := Io(a.fetchOk, a.write, w.cloning);
    BaseOk(w, a.now, io);
    var found := Loaded(w.cell, a.now, io);
    if found.Ok? && found.value.Some? {
      var g := BaseGroup(w, a.now, io);
      Loads(w, a.now, io);
      var g' := Step(w, a).cell.mem.value;
      GroupMembers(g);
      if g' == g && Step(w, a).cell.rec == w.cell.rec {
        Stays(w, Step(w, a), g, Touched(w, a));
      } else {
        HeartbeatOk(g, a.memberId, a.now);
        HeartbeatPreserves(g, a.memberId, a.now);
        PersistedFollows(w, g', io);
        Turned(w, Step(w, a), g, g', {}, Touched(w, a));
      }
    }
  }

  lemma LeaveMoves(w: World, a: Action)
    requires Inv(w) && a.Leave?
    ensures Moves(w, Step(w, a), {}, Touched(w, a))
  {
    hide Inv, GroupOk, Evolves, JoinsOnly, Follows, Source, Left, Kept, BuildConsumerGroup;
    Unmoved(w, Touched(w, a));
    var io := Io(a.fetchOk, a.write, w.cloning);
    BaseOk(w, a.now, io);
    var found := Loaded(w.cell, a.now, io);
    if found.Ok? && found.value.Some? {
      var g := BaseGroup(w, a.now, io);
      Loads(w, a.now, io);
      GroupMembers(g);
      if a.memberId !in g.members {
        Stays(w, Step(w, a), g, {});
      } else {
        LeftOk(g, a.memberId, a.now);
        LeftPreserves(g, a.memberId, a.now);
        var left := Left(g, a.memberId, a.now);
        if left.Some? {
          PersistedFollows(w, left.value, io);
          Turned(w, Step(w, a), g, left.value, {}, {});
        }
      }
    }
  }

  lemma SweepMoves(w: World, a: Action)
    requires Inv(w) && a.Sweep?
    ensures Moves(w, Step(w, a), {}, Touched(w, a))
  {
    hide Inv, GroupOk, Evolves, JoinsOnly, Follows, Swept, Kept, BuildConsumerGroup;
    Unmoved(w, Touched(w, a));
    if w.cell.mem.Some? {
      var g := w.cell.mem.value;
      InMemoryOk(w);
      SweptOk(g, a.now);
      SweptPreserves(g, a.now);
      var (g', changed) := Swept(g, a.now);
      if g'.Some? {
        FollowsSame(w, g'.value);
        PersistedFollows(w, g'.value, Io(true, a.write, w.cloning));
        Turned(w, Step(w, a), g, g'.value, {}, {});
      }
    }
  }

  lemma DeleteMoves(w: World, a: Action)
    requires Inv(w) && (a.Delete? || a.Crash?)
    ensures Moves(w, Step(w, a), {}, Touched(w, a))
  {
    hide JoinsOnly, Follows, Inv, GroupOk;
    if Step(w, a).cell.mem.Some? {
      InMemoryOk(w);
      GroupMembers(w.cell.mem.value);
      Stays(w, Step(w, a), w.cell.mem.value, {});
    }
  }

  lemma StepMoves(w: World, a: Action)
    requires Inv(w) && Legal(w, a)
    ensures Moves(w, Step(w, a), Callers(w, a), Touched(w, a))
  {
    hide Inv, Step, Legal, Moves;
    match a
    case Join(_, _, _, _, _) => JoinMoves(w, a);
    case Sync(_, _, _, _, _, _) => SyncMoves(w, a);
    case Beat(_, _, _, _, _) => BeatMoves(w, a);
    case Leave(_, _, _, _) => LeaveMoves(w, a);
    case Sweep(_, _) => SweepMoves(w, a);
    case Delete(_, _) => DeleteMoves(w, a);
    case Crash => DeleteMoves(w, a);
  }

  // ------------------------------------------------------------------ who has called, and when

  function GenerationOf(c: Cell): int {
    if c.mem.Some? then c.mem.value.generation else if c.rec.Some? then c.rec.value.generation else 0
  }

  /** After step `p` and up to state `i` the group has existed, and not in a generation before `g`. */
  ghost predicate Since(states: seq<World>, p: int, i: nat, g: int)
    requires i < |states| && 0 <= p
  {
    forall k :: p < k <= i ==> Exists(states[k].cell) && GenerationOf(states[k].cell) >= g
  }

  /** Step `p` was a JoinGroup call of `m` in generation `g`, which has not begun anew since. */
  ghost predicate CalledAt(actions: seq<Action>, states: seq<World>, p: int, i: nat, m: Name, g: int)
    requires |states| == |actions| + 1 && i < |states|
  {
    && 0 <= p < i && Calls(states[p], actions[p], m)
    && states[p + 1].cell.mem.Some? && states[p + 1].cell.mem.value.generation == g && Since(states, p, i, g)
  }

  /** Member `m` has called JoinGroup since generation `g` began. */
  ghost predicate Called(actions: seq<Action>, states: seq<World>, i: nat, m: Name, g: int)
    requires |states| == |actions| + 1 && i < |states|
  {
    exists p :: CalledAt(actions, states, p, i, m, g)
  }

  /** A step that loads the group in generation `g` from a record in PreparingRebalance. */
  predicate LoadsPreparing(w: World, w': World, g: int) {
    && w.cell.mem.None? && w.cell.rec.Some? && w'.cell.mem.Some?
    && w.cell.rec.value.generation == g && w.cell.rec.value.state == PhaseString(PreparingRebalance)
  }

  /** Since generation `g` began, no step has loaded it from such a record. */
  ghost predicate Untainted(states: seq<World>, i: nat, g: int)
    requires i < |states|
  {
    forall k :: 0 <= k < i && Since(states, k, i, g) ==> !LoadsPreparing(states[k], states[k + 1], g)
  }

  lemma CalledLater(actions: seq<Action>, states: seq<World>, i: nat, m: Name, g: int)
    requires |states| == |actions| + 1 && i + 1 < |states| && Called(actions, states, i, m, g)
    requires Exists(states[i + 1].cell) && GenerationOf(states[i + 1].cell) >= g
    ensures Called(actions, states, i + 1, m, g)
  {
    hide Calls, Exists, GenerationOf;
    var p :| CalledAt(actions, states, p, i, m, g);
    assert CalledAt(actions, states, p, i + 1, m, g);
  }

  lemma CalledNow(actions: seq<Action>, states: seq<World>, i: nat, m: Name, g: int)
    requires |states| == |actions| + 1 && i + 1 < |states| && Calls(states[i], actions[i], m)
    requires states[i + 1].cell.mem.Some? && states[i + 1].cell.mem.value.generation == g
    ensures Called(actions, states, i + 1, m, g)
  {
    hide Calls;
    assert CalledAt(actions, states, i, i + 1, m, g);
  }

  lemma CalledEarlier(actions: seq<Action>, states: seq<World>, i: nat, m: Name, g: int)
    requires |states| == |actions| + 1 && i + 1 < |states| && Called(actions, states, i + 1, m, g)
    requires !Calls(states[i], actions[i], m)
    ensures Called(actions, states, i, m, g) && Exists(states[i].cell) && GenerationOf(states[i].cell) >= g
  {
    hide Calls, Exists, GenerationOf;
    var p :| CalledAt(actions, states, p, i + 1, m, g);
    assert CalledAt(actions, states, p, i, m, g);
  }

  lemma UntaintedEarlier(states: seq<World>, i: nat, g: int)
    requires i + 1 < |states| && Untainted(states, i + 1, g)
    requires Exists(states[i + 1].cell) && GenerationOf(states[i + 1].cell) >= g
    ensures Untainted(states, i, g) && !LoadsPreparing(states[i], states[i + 1], g)
  {
    hide LoadsPreparing, Exists, GenerationOf;
    assert Since(states, i, i + 1, g);
    forall k | 0 <= k < i && Since(states, k, i, g) ensures !LoadsPreparing(states[k], states[k + 1], g) {
      assert Since(states, k, i + 1, g);
    }
  }

  // ------------------------------------------------------------------------- the barrier

  /** Unless the generation was loaded from a record in PreparingRebalance, those who count as joined
      in memory are those who have called, and those in a record past preparing have called. */
  ghost predicate Truthful(actions: seq<Action>, states: seq<World>, i: nat)
    requires |states| == |actions| + 1 && i < |states|
  {
    var c := states[i].cell;
    && (c.mem.Some? && Untainted(states, i, c.mem.value.generation) ==> MemoryTrue(actions, states, i))
    && (c.rec.Some? && Untainted(states, i, c.rec.value.generation) ==> RecordTrue(actions, states, i))
    && (c.mem.Some? && c.rec.Some? && c.rec.value.generation == c.mem.value.generation ==>
          forall m :: m in c.rec.value.members ==> m in c.mem.value.members)
  }

  ghost predicate MemoryTrue(actions: seq<Action>, states: seq<World>, i: nat)
    requires |states| == |actions| + 1 && i < |states| && states[i].cell.mem.Some?
  {
    var g := states[i].cell.mem.value;
    forall m :: m in g.members ==> (IsJoined(g, m) <==> Called(actions, states, i, m, g.generation))
  }

  ghost predicate RecordTrue(actions: seq<Action>, states: seq<World>, i: nat)
    requires |states| == |actions| + 1 && i < |states| && states[i].cell.rec.Some?
  {
    var r := states[i].cell.rec.value;
    r.state != PhaseString(PreparingRebalance) ==>
      forall m :: m in r.members ==> Called(actions, states, i, m, r.generation)
  }

  lemma CallersCall(w: World, a: Action, m: Name)
    ensures m in Callers(w, a) <==> Calls(w, a, m)
  {
  }

  /** Before the step, the group it works on told the truth about who has called. */
  lemma SourceTrue(actions: seq<Action>, states: seq<World>, i: nat, g: Group, m: Name)
    requires |states| == |actions| + 1 && i + 1 < |states| && Truthful(actions, states, i)
    requires Source(states[i].cell, g) && Exists(states[i].cell) && m in g.members
    requires Untainted(states, i, g.generation) && !LoadsPreparing(states[i], states[i + 1], g.generation)
    requires states[i + 1].cell.mem.Some?
    ensures IsJoined(g, m) <==> Called(actions, states, i, m, g.generation)
    ensures GenerationOf(states[i].cell) == g.generation
  {
    hide Called, Untainted, PhaseString;
    if states[i].cell.mem.None? {
      assert m in states[i].cell.rec.value.members;
    }
  }

  lemma MemoryStep(actions: seq<Action>, states: seq<World>, i: nat, g: Group, touched: set<Name>, m: Name)
    requires |states| == |actions| + 1 && i + 1 < |states| && Truthful(actions, states, i)
    requires states[i + 1].cell.mem.Some? && m in states[i + 1].cell.mem.value.members
    requires Turns(states[i], states[i + 1], g, states[i + 1].cell.mem.value, Callers(states[i], actions[i]), touched)
    requires Untainted(states, i + 1, states[i + 1].cell.mem.value.generation)
    ensures var g' := states[i + 1].cell.mem.value;
            IsJoined(g', m) <==> Called(actions, states, i + 1, m, g'.generation)
  {
    hide Called, Untainted, Calls, Callers, LoadsPreparing, Truthful, Follows;
    var w, a, g' := states[i], actions[i], states[i + 1].cell.mem.value;
    CallersCall(w, a, m);
    UntaintedEarlier(states, i, g'.generation);
    if Calls(w, a, m) {
      CalledNow(actions, states, i, m, g'.generation);
    } else {
      assert m in g.members;
      SourceExists(w.cell, g);
      if g'.generation == g.generation { SourceTrue(actions, states, i, g, m); }
      SourceGeneration(w.cell, g);
      if IsJoined(g', m) {
        CalledLater(actions, states, i, m, g'.generation);
      }
      if Called(actions, states, i + 1, m, g'.generation) {
        CalledEarlier(actions, states, i, m, g'.generation);
      }
    }
  }

  lemma SourceGeneration(c: Cell, g: Group)
    requires Source(c, g)
    ensures GenerationOf(c) == g.generation
  {
  }

  lemma SourceExists(c: Cell, g: Group)
    requires Source(c, g) && g.members != map[]
    ensures Exists(c)
  {
  }

  lemma BuiltRecord(g: Group, cloning: bool)
    ensures var r := Kept(BuildConsumerGroup(g), cloning);
            && r.generation == g.generation && r.members.Keys == g.members.Keys
            && (r.state == PhaseString(PreparingRebalance) <==> g.phase.PreparingRebalance?)
  {
    KeptNames(g, cloning);
    PhaseRoundTrip(g.phase);
    PhaseRoundTrip(PreparingRebalance);
  }

  lemma RecordBehind(w: World)
    requires Inv(w) && w.cell.rec.Some?
    ensures GenerationOf(w.cell) >= w.cell.rec.value.generation
  {
    hide GroupOk, Saved, Says, RecordSays;
  }

  lemma RecordStep(actions: seq<Action>, states: seq<World>, i: nat, m: Name)
    requires |states| == |actions| + 1 && i + 1 < |states| && Truthful(actions, states, i)
    requires Inv(states[i + 1]) && states[i + 1].cell.rec.Some? && m in states[i + 1].cell.rec.value.members
    requires states[i + 1].cell.rec.value.state != PhaseString(PreparingRebalance)
    requires Untainted(states, i + 1, states[i + 1].cell.rec.value.generation)
    requires || states[i + 1].cell.rec == states[i].cell.rec
             || (&& states[i + 1].cell.mem.Some?
                 && var g' := states[i + 1].cell.mem.value;
                    && states[i + 1].cell.rec.value == Kept(BuildConsumerGroup(g'), states[i].cloning)
                    && (Untainted(states, i + 1, g'.generation) ==> MemoryTrue(actions, states, i + 1)))
    ensures Called(actions, states, i + 1, m, states[i + 1].cell.rec.value.generation)
  {
    hide Called, Untainted, PhaseString, Inv, Kept, BuildConsumerGroup, IsJoined, GroupOk;
    var r := states[i + 1].cell.rec.value;
    RecordBehind(states[i + 1]);
    if states[i + 1].cell.rec == states[i].cell.rec {
      UntaintedEarlier(states, i, r.generation);
      CalledLater(actions, states, i, m, r.generation);
    } else {
      var g' := states[i + 1].cell.mem.value;
      BuiltRecord(g', states[i].cloning);
      InMemoryOk(states[i + 1]);
      PastPreparing(g', m);
    }
  }

  lemma PastPreparing(g: Group, m: Name)
    requires GroupOk(g) && !g.phase.PreparingRebalance? && m in g.members
    ensures IsJoined(g, m)
  {
  }

  lemma MembersStep(w: World, w': World, g: Group, g': Group, callers: set<Name>, touched: set<Name>, m: Name)
    requires Inv(w) && Turns(w, w', g, g', callers, touched) && w'.cell.rec.Some?
    requires w.cell.mem.Some? && w.cell.rec.Some? && w.cell.rec.value.generation == w.cell.mem.value.generation ==>
               forall x :: x in w.cell.rec.value.members ==> x in w.cell.mem.value.members
    requires w'.cell.rec.value.generation == g'.generation && m in w'.cell.rec.value.members
    ensures m in g'.members
  {
    hide Inv, Kept, BuildConsumerGroup;
    BuiltRecord(g', w.cloning);
    if w.cell.rec.Some? { RecordBehind(w); }
  }

  lemma StepTruthful(actions: seq<Action>, states: seq<World>, i: nat)
    requires |states| == |actions| + 1 && i + 1 < |states| && Truthful(actions, states, i)
    requires Inv(states[i]) && Inv(states[i + 1])
    requires Moves(states[i], states[i + 1], Callers(states[i], actions[i]), Touched(states[i], actions[i]))
    ensures Truthful(actions, states, i + 1)
  {
    hide Called, Untainted, Callers, PhaseString, Inv, Kept, BuildConsumerGroup, IsJoined, Turns;
    var w, w', callers := states[i], states[i + 1], Callers(states[i], actions[i]);
    var touched := Touched(w, actions[i]);
    if w'.cell.mem.Some? {
      var g' := w'.cell.mem.value;
      var g :| Turns(w, w', g, g', callers, touched);
      if Untainted(states, i + 1, g'.generation) {
        forall m | m in g'.members
          ensures IsJoined(g', m) <==> Called(actions, states, i + 1, m, g'.generation)
        {
          MemoryStep(actions, states, i, g, touched, m);
        }
      }
      if w'.cell.rec.Some? && w'.cell.rec.value.generation == g'.generation {
        forall m | m in w'.cell.rec.value.members ensures m in g'.members {
          MembersStep(w, w', g, g', callers, touched, m);
        }
      }
      TurnsRecord(w, w', g, g', callers, touched);
    }
    if w'.cell.rec.Some? && Untainted(states, i + 1, w'.cell.rec.value.generation)
       && w'.cell.rec.value.state != PhaseString(PreparingRebalance) {
      forall m | m in w'.cell.rec.value.members
        ensures Called(actions, states, i + 1, m, w'.cell.rec.value.generation)
      {
        RecordStep(actions, states, i, m);
      }
    }
  }

  lemma TurnsRecord(w: World, w': World, g: Group, g': Group, callers: set<Name>, touched: set<Name>)
    requires Turns(w, w', g, g', callers, touched)
    ensures || w'.cell.rec.None? || w'.cell.rec == w.cell.rec
            || w'.cell.rec.value == Kept(BuildConsumerGroup(g'), w.cloning)
  {
  }

  lemma {:induction false} RunTruthful(cloning: bool, actions: seq<Action>, states: seq<World>, i: nat)
    requires IsRun(cloning, actions, states) && i < |states|
    ensures Truthful(actions, states, i)
  {
    hide Step, Legal, Inv, Moves, Callers;
    if i == 0 {
      assert states[0].cell == Cell(None, None);
    } else {
      hide Truthful;
      RunTruthful(cloning, actions, states, i - 1);
      RunKeeps(cloning, actions, states, i - 1);
      RunKeeps(cloning, actions, states, i);
      StepMoves(states[i - 1], actions[i - 1]);
      StepTruthful(actions, states, i - 1);
    }
  }

  /** In memory a member counts as joined if and only if it has called since the generation began,
      in every state of every run, as long as the generation was not loaded from a record in
      PreparingRebalance. */
  lemma JoinedExactlyWhenCalled(cloning: bool, actions: seq<Action>, states: seq<World>, i: nat, m: Name)
    requires IsRun(cloning, actions, states) && i < |states| && states[i].cell.mem.Some?
    requires m in states[i].cell.mem.value.members && Untainted(states, i, states[i].cell.mem.value.generation)
    ensures var g := states[i].cell.mem.value;
            IsJoined(g, m) <==> Called(actions, states, i, m, g.generation)
  {
    RunTruthful(cloning, actions, states, i);
    hide IsRun, Called, Untainted, IsJoined;
  }

  /** The join barrier, through crashes, reloads and failed or ambiguous writes: a group is past
      preparing only if every member has called JoinGroup since the generation began, as long as the
      generation was not loaded from a record in PreparingRebalance. */
  lemma PastPreparingAllCalled(cloning: bool, actions: seq<Action>, states: seq<World>, i: nat, m: Name)
    requires IsRun(cloning, actions, states) && i < |states| && states[i].cell.mem.Some?
    requires !states[i].cell.mem.value.phase.PreparingRebalance? && m in states[i].cell.mem.value.members
    requires Untainted(states, i, states[i].cell.mem.value.generation)
    ensures Called(actions, states, i, m, states[i].cell.mem.value.generation)
  {
    hide IsRun, Called, Untainted, IsJoined, Inv;
    RunKeeps(cloning, actions, states, i);
    InMemoryOk(states[i]);
    PastPreparing(states[i].cell.mem.value, m);
    JoinedExactlyWhenCalled(cloning, actions, states, i, m);
  }

  // ------------------------------------------------------- when a reload breaks the barrier

  /** The first request after a crash is the rejoin of a member: the group is past preparing at once. */
  lemma RejoinLoads(w: World, a: Action)
    requires Inv(w) && Legal(w, a) && w.cell.mem.None? && w.cell.rec.Some?
    requires a.Join? && a.fetchOk && a.req.memberId in w.cell.rec.value.members
    ensures var w' := Step(w, a);
            && w'.cell.mem.Some? && !w'.cell.mem.value.phase.PreparingRebalance?
            && w'.cell.mem.value.generation == w.cell.rec.value.generation
            && w'.cell.mem.value.members.Keys == w.cell.rec.value.members.Keys
            && forall m :: Calls(w, a, m) <==> m == a.req.memberId
  {
    hide GroupOk, Kept, BuildConsumerGroup, RestoreGroupState, Joined, Persisted, MemberSubscriptions, Says, RecordSays,
         Consistent;
    var rec := w.cell.rec.value;
    var g :| GroupOk(g) && rec == Kept(BuildConsumerGroup(g), w.cloning);
    BuiltRecord(g, w.cloning);
    RestoredNames(rec, a.now);
    RestoredGeneration(rec, a.now);
    RestoreBuilt(g, w.cloning, a.now);
    GroupMembers(g);
    var r := RestoreGroupState(rec, a.now);
    assert BaseGroup(w, a.now, Io(a.fetchOk, a.write, w.cloning)) == r;
    KnownById(r, a.req);
    NotNew(r);
    ReloadedJoinIsReady(g, w.cloning, a.req, a.freshId, a.now, a.now);
    JoinOk(r, a.req, a.freshId, a.now);
    JoinExactly(r, a.req, a.freshId, a.now);
  }

  lemma KnownById(g: Group, req: JoinRequest)
    requires req.memberId in g.members && [] !in g.members
    ensures Known(g, req)
  {
  }

  lemma NotNew(g: Group)
    requires GroupOk(g)
    ensures g != NEW_GROUP
  {
  }

  /** The exact effect of a crash on the barrier. The broker crashes with a group in memory whose
      record is of the same generation, however stale, and a member `j` of the record is the first to
      come back. Then the group is past preparing, and a member of it has called JoinGroup since
      the generation began if and only if it is `j` or had joined before the crash. */
  lemma CalledAfterReload(cloning: bool, actions: seq<Action>, states: seq<World>, i: nat, m: Name)
    requires IsRun(cloning, actions, states) && i + 2 < |states| && actions[i].Crash?
    requires states[i].cell.mem.Some? && states[i].cell.rec.Some?
    requires states[i].cell.rec.value.generation == states[i].cell.mem.value.generation
    requires actions[i + 1].Join? && actions[i + 1].fetchOk
    requires actions[i + 1].req.memberId in states[i].cell.rec.value.members
    requires Untainted(states, i, states[i].cell.mem.value.generation) && m in states[i].cell.rec.value.members
    ensures states[i + 2].cell.mem.Some? && !states[i + 2].cell.mem.value.phase.PreparingRebalance?
    ensures states[i + 2].cell.mem.value.members.Keys == states[i].cell.rec.value.members.Keys
    ensures var g := states[i].cell.mem.value;
            && states[i + 2].cell.mem.value.generation == g.generation
            && (Called(actions, states, i + 2, m, g.generation) <==>
                  m == actions[i + 1].req.memberId || IsJoined(g, m))
  {
    hide Step, Legal, Inv, Called, Untainted, IsJoined, Calls;
    var g, rec := states[i].cell.mem.value, states[i].cell.rec.value;
    var w1, w2, a := states[i + 1], states[i + 2], actions[i + 1];
    CrashStep(states[i]);
    RunKeeps(cloning, actions, states, i + 1);
    RejoinLoads(w1, a);
    RunTruthful(cloning, actions, states, i);
    JoinedExactlyWhenCalled(cloning, actions, states, i, m);
    NoCall(states[i], actions[i], m);
    if m == a.req.memberId {
      CalledNow(actions, states, i + 1, m, g.generation);
    } else {
      if Called(actions, states, i, m, g.generation) {
        CalledLater(actions, states, i, m, g.generation);
        CalledLater(actions, states, i + 1, m, g.generation);
      }
      if Called(actions, states, i + 2, m, g.generation) {
        CalledEarlier(actions, states, i + 1, m, g.generation);
        CalledEarlier(actions, states, i, m, g.generation);
      }
    }
  }

  lemma NoCall(w: World, a: Action, m: Name)
    requires a.Crash?
    ensures !Calls(w, a, m)
  {
  }

  /** A stranger's join to a stable group: a new generation that only the stranger has joined, as the
      record says, too. */
  lemma StrangerRecorded(w: World, topic: Name, a: Name, b: Name, now: int)
    requires Inv(w) && w.cell.mem.Some? && w.cell.mem.value.phase.Stable? && b != [] && a != b
    requires w.cell.mem.value.members.Keys == {a}
    ensures var act := Join(JoinOf(topic), b, now, true, Done);
            var w' := Step(w, act);
            && Legal(w, act) && w'.cell.mem.Some? && w'.cell.rec.Some?
            && var g, g' := w.cell.mem.value, w'.cell.mem.value;
               && g'.generation == g.generation + 1 && g'.members.Keys == {a, b} && !IsJoined(g', a)
               && w'.cell.rec.value.generation == g'.generation && w'.cell.rec.value.members.Keys == {a, b}
  {
    hide Inv, GroupOk, Joined, Kept, BuildConsumerGroup, MemberSubscriptions, EncodeSubscription;
    InMemoryOk(w);
    var g := w.cell.mem.value;
    NotNew(g);
    JoinExactly(g, JoinOf(topic), b, now);
    JoinOk(g, JoinOf(topic), b, now);
    var g' := Joined(g, JoinOf(topic), b, now).0;
    BuiltRecord(g', w.cloning);
  }

  /** The barrier broken. Member `a` founds a group and syncs; `b` joins, which starts generation 2 and
      waits for `a`; the broker crashes, and `b` calls again. Now the group is past preparing in
      generation 2 with `a` in it, who has not called JoinGroup in that generation. */
  lemma BarrierBroken(cloning: bool, topic: Name, a: Name, b: Name, c: Name, now: int)
    returns (actions: seq<Action>, states: seq<World>)
    requires |topic| < TWO16 && a != [] && b != [] && c != [] && a != b && c !in {a, b}
    ensures IsRun(cloning, actions, states) && |actions| == 5 && states[5].cell.mem.Some?
    ensures var g := states[5].cell.mem.value;
            && g.generation == 2 && !g.phase.PreparingRebalance? && a in g.members
            && !Called(actions, states, 5, a, 2)
  {
    hide Inv, GroupOk, Step, Legal, Assigned, SubscriptionsOf, Kept, BuildConsumerGroup, Steps, AnsweredSync, Joined,
         JoinOf;
    hide BaseGroup, Called, IsJoined, EncodeAssignment;
    InitInv(cloning);
    var w0 := Init(cloning);
    var a0, a1 := Join(JoinOf(topic), a, now, true, Done), Sync(a, 1, map[], now, true, Done);
    var a2, a4 := Join(JoinOf(topic), b, now, true, Done), Join(JoinOf(topic).(memberId := b), c, now, true, Done);
    Founds(w0, topic, a, now);
    var w1 := Step(w0, a0);
    LeaderSyncs(w1, map[], now);
    var w2 := Step(w1, a1);
    StrangerRecorded(w2, topic, a, b, now);
    var w3 := Step(w2, a2);
    CrashStep(w3);
    var w4 := Step(w3, Crash);
    RejoinLegal(w4, topic, b, c, now);
    var w5 := Step(w4, a4);
    StepsNone(w5);
    StepsOne(a4, w4, [], [w5]);
    StepsOne(Crash, w3, [a4] + [], [w4] + [w5]);
    StepsOne(a2, w2, [Crash] + ([a4] + []), [w3] + ([w4] + [w5]));
    StepsOne(a1, w1, [a2] + ([Crash] + ([a4] + [])), [w2] + ([w3] + ([w4] + [w5])));
    StepsOne(a0, w0, [a1] + ([a2] + ([Crash] + ([a4] + []))), [w1] + ([w2] + ([w3] + ([w4] + [w5]))));
    actions := [a0] + ([a1] + ([a2] + ([Crash] + ([a4] + []))));
    states := [w0] + ([w1] + ([w2] + ([w3] + ([w4] + [w5]))));
    StepsRun(w0, actions, states);
    assert states[0] == w0 && states[1] == w1 && states[2] == w2 && states[3] == w3 && states[4] == w4;
    assert Untainted(states, 3, 2);
    CalledAfterReload(cloning, actions, states, 3, a);
  }

  lemma RejoinLegal(w: World, topic: Name, b: Name, c: Name, now: int)
    requires w.cell.mem.None? && w.cell.rec.Some? && c != [] && c !in w.cell.rec.value.members
    ensures Legal(w, Join(JoinOf(topic).(memberId := b), c, now, true, Done))
  {
    hide RestoreGroupState, EncodeSubscription;
    RestoredNames(w.cell.rec.value, now);
  }
}
